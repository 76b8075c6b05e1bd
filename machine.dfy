/** The LS-8 machine state as a value, and one fetch-decode-execute step and
    a bounded run of the dispatch loop as functions of it. The class in
    module Cpu updates its fields in place and is proved to follow these. */
module Machine {
  import opened Opcodes
  import opened Alu

  const RAM_SIZE: int := 256
  const REG_COUNT: int := 8

  /** A valid general-purpose register index. */
  type Reg = i: int | 0 <= i < 8

  /** The built-in program used when no program image is given:
      LDI R0,8; PRN R0; HLT. */
  const DEFAULT_PROGRAM: seq<int> := [LDI, 0, 8, PRN, 0, HLT]

  datatype State = State(
    ram: seq<int>,      // memory, 256 cells
    reg: seq<int>,      // general-purpose registers R0..R7
    pc: int,            // program counter
    sp: int,            // stack pointer; the stack grows downward from 256
    E: int, L: int, G: int,  // comparison flags
    output: seq<int>)   // the values PRN has printed, in order

  predicate WellFormed(s: State) {
    |s.ram| == RAM_SIZE && |s.reg| == REG_COUNT
  }

  /** A freshly constructed machine: zeroed memory and registers, pc at 0,
      stack pointer one past the last memory cell, flags clear. */
  function Initial(): (s: State)
    ensures WellFormed(s)
    ensures forall a :: 0 <= a < RAM_SIZE ==> s.ram[a] == 0
    ensures forall r :: 0 <= r < REG_COUNT ==> s.reg[r] == 0
    ensures s.pc == 0 && s.sp == RAM_SIZE && s.E == s.L == s.G == 0 && s.output == []
  {
    State(seq(RAM_SIZE, _ => 0), seq(REG_COUNT, _ => 0), 0, RAM_SIZE, 0, 0, 0, [])
  }

  /** The bytes a load writes: the given program, or the built-in one when the
      given one is empty. */
  function Image(program: seq<int>): (image: seq<int>)
    ensures |program| > 0 ==> image == program
    ensures |program| == 0 ==> image == DEFAULT_PROGRAM
  {
    if |program| > 0 then program else DEFAULT_PROGRAM
  }

  /** Memory after loading a program image at address 0. */
  function Loaded(ram: seq<int>, program: seq<int>): (r: seq<int>)
    requires |ram| == RAM_SIZE && |Image(program)| <= RAM_SIZE
    ensures |r| == RAM_SIZE
    ensures forall a :: 0 <= a < |Image(program)| ==> r[a] == Image(program)[a]
    ensures forall a :: |Image(program)| <= a < RAM_SIZE ==> r[a] == ram[a]
  {
    Image(program) + ram[|Image(program)|..]
  }

  // ---------------------------------------------------------------------
  // Faults and step outcomes

  /** Why execution stopped abnormally. The unknown-instruction fault is the
      one the program reports before exiting with status 1; the others stand
      for the host's out-of-range indexing and shift errors. */
  datatype Fault =
    | UnknownInstruction(opcode: int, address: int)
    | AddressOutOfRange(address: int)
    | RegisterOutOfRange(index: int)
    | StackOutOfRange(sp: int)
    | NegativeShift(count: int)

  /** What one step of the dispatch loop does: go on, halt on HLT, halt
      after reporting a zero MOD divisor, or fault. */
  datatype Outcome = Continue | Halt | ModByZero | Trap(fault: Fault)

  /** The result of executing an instruction: the next state, or the outcome
      that stops the loop (in which case the state is left as it was). */
  datatype Result<T> = Ok(value: T) | Stop(outcome: Outcome) {
    predicate IsFailure() { Stop? }
    function PropagateFailure<U>(): Result<U> requires Stop? { Stop(outcome) }
    function Extract(): T requires Ok? { value }
  }

  // ---------------------------------------------------------------------
  // Memory, registers and the stack

  /** ram_read: the cell at an address, or a fault outside memory. */
  function Read(s: State, address: int): (r: Result<int>)
    requires WellFormed(s)
    ensures r.Ok? <==> 0 <= address < RAM_SIZE
    ensures r.Ok? ==> r.value == s.ram[address]
    ensures r.Stop? ==> r.outcome == Trap(AddressOutOfRange(address))
  {
    if 0 <= address < RAM_SIZE then Ok(s.ram[address])
    else Stop(Trap(AddressOutOfRange(address)))
  }

  /** An operand byte read as a register index. */
  function AsReg(x: int): (r: Result<Reg>)
    ensures r.Ok? <==> 0 <= x < REG_COUNT
    ensures r.Ok? ==> r.value == x
    ensures r.Stop? ==> r.outcome == Trap(RegisterOutOfRange(x))
  {
    if 0 <= x < REG_COUNT then Ok(x) else Stop(Trap(RegisterOutOfRange(x)))
  }

  /** Stack pointer values at which a push has a cell to write. */
  predicate CanPush(s: State) {
    0 < s.sp <= RAM_SIZE
  }

  /** Stack pointer values at which a pop has a cell to read. */
  predicate CanPop(s: State) {
    0 <= s.sp < RAM_SIZE
  }

  /** push_value: decrement sp, then store the value at the new sp. */
  function StackPush(s: State, v: int): (t: State)
    requires WellFormed(s) && CanPush(s)
    ensures WellFormed(t) && CanPop(t)
    ensures t.sp == s.sp - 1 && t.ram[t.sp] == v
    ensures forall a :: 0 <= a < RAM_SIZE && a != t.sp ==> t.ram[a] == s.ram[a]
    ensures t.reg == s.reg && t.pc == s.pc && t.output == s.output
  {
    s.(sp := s.sp - 1, ram := s.ram[s.sp - 1 := v])
  }

  /** pop_value: the value at sp, and the state with sp incremented. */
  function StackPop(s: State): (r: (int, State))
    requires WellFormed(s) && CanPop(s)
    ensures WellFormed(r.1) && CanPush(r.1)
    ensures r.0 == s.ram[s.sp] && r.1 == s.(sp := s.sp + 1)
  {
    (s.ram[s.sp], s.(sp := s.sp + 1))
  }

  // ---------------------------------------------------------------------
  // Executing one decoded instruction

  /** LDI reg, immediate. */
  function ExecLdi(s: State): Result<State>
    requires WellFormed(s)
  {
    var x :- Read(s, s.pc + 1);
    var v :- Read(s, s.pc + 2);
    var a :- AsReg(x);
    Ok(s.(reg := s.reg[a := v], pc := s.pc + 3))
  }

  /** PRN reg: the register's value is appended to the output. */
  function ExecPrn(s: State): Result<State>
    requires WellFormed(s)
  {
    var x :- Read(s, s.pc + 1);
    var a :- AsReg(x);
    Ok(s.(output := s.output + [s.reg[a]], pc := s.pc + 2))
  }

  /** The binary ALU instructions (ADD, MUL, AND, OR, XOR, SHL, SHR, MOD): the
      operands are decoded before a zero MOD divisor is looked for. */
  function ExecBinary(s: State, op: BinOp): Result<State>
    requires WellFormed(s)
  {
    var x :- Read(s, s.pc + 1);
    var y :- Read(s, s.pc + 2);
    var a :- AsReg(x);
    var b :- AsReg(y);
    match Apply(op, s.reg[a], s.reg[b])
    case Value(v) => Ok(s.(reg := s.reg[a := v], pc := s.pc + 3))
    case ZeroDivisor => Stop(ModByZero)
    case NegativeShiftCount(n) => Stop(Trap(NegativeShift(n)))
  }

  /** CMP regA, regB. */
  function ExecCmp(s: State): Result<State>
    requires WellFormed(s)
  {
    var x :- Read(s, s.pc + 1);
    var y :- Read(s, s.pc + 2);
    var a :- AsReg(x);
    var b :- AsReg(y);
    var f := Compare(s.reg[a], s.reg[b]);
    Ok(s.(E := f.E, L := f.L, G := f.G, pc := s.pc + 3))
  }

  /** NOT reg: the register is replaced by its complement. */
  function ExecNot(s: State): Result<State>
    requires WellFormed(s)
  {
    var x :- Read(s, s.pc + 1);
    var a :- AsReg(x);
    Ok(s.(reg := s.reg[a := Complement(s.reg[a])], pc := s.pc + 2))
  }

  /** PUSH reg: sp is decremented, then the register is stored at sp. */
  function ExecPush(s: State): Result<State>
    requires WellFormed(s)
  {
    var x :- Read(s, s.pc + 1);
    var a :- AsReg(x);
    if !CanPush(s) then Stop(Trap(StackOutOfRange(s.sp - 1)))
    else Ok(StackPush(s, s.reg[a]).(pc := s.pc + 2))
  }

  /** POP reg: the cell at sp goes to the register, then sp is incremented. */
  function ExecPop(s: State): Result<State>
    requires WellFormed(s)
  {
    if !CanPop(s) then Stop(Trap(StackOutOfRange(s.sp)))
    else
      var x :- Read(s, s.pc + 1);
      var a :- AsReg(x);
      var (v, t) := StackPop(s);
      Ok(t.(reg := t.reg[a := v], pc := s.pc + 2))
  }

  /** CALL reg: the return address pc + 2 is pushed and pc becomes the
      register's value. The operand byte is read after the push, so when the
      push lands on it (sp - 1 == pc + 1) the register number is the return
      address just written. */
  function ExecCall(s: State): Result<State>
    requires WellFormed(s)
  {
    if !CanPush(s) then Stop(Trap(StackOutOfRange(s.sp - 1)))
    else
      var t := StackPush(s, s.pc + 2);
      var x :- Read(t, s.pc + 1);
      var a :- AsReg(x);
      Ok(t.(pc := t.reg[a]))
  }

  /** RET: pc becomes the value popped from the stack. */
  function ExecRet(s: State): Result<State>
    requires WellFormed(s)
  {
    if !CanPop(s) then Stop(Trap(StackOutOfRange(s.sp)))
    else
      var (v, t) := StackPop(s);
      Ok(t.(pc := v))
  }

  /** JMP, JEQ, JNE: when the jump is taken pc becomes the register's value,
      otherwise it moves past the two-byte instruction without reading the
      operand. */
  function ExecJump(s: State, taken: bool): Result<State>
    requires WellFormed(s)
  {
    if taken then
      var x :- Read(s, s.pc + 1);
      var a :- AsReg(x);
      Ok(s.(pc := s.reg[a]))
    else Ok(s.(pc := s.pc + 2))
  }

  /** The effect of a decoded instruction; its bytes start at pc. */
  function Execute(s: State, op: Opcode): Result<State>
    requires WellFormed(s)
  {
    match op
    case Hlt => Stop(Halt)
    case Ldi => ExecLdi(s)
    case Prn => ExecPrn(s)
    case Add => ExecBinary(s, BinOp.Add)
    case Mul => ExecBinary(s, BinOp.Mul)
    case And => ExecBinary(s, BinOp.And)
    case Or => ExecBinary(s, BinOp.Or)
    case Xor => ExecBinary(s, BinOp.Xor)
    case Shl => ExecBinary(s, BinOp.Shl)
    case Shr => ExecBinary(s, BinOp.Shr)
    case Mod => ExecBinary(s, BinOp.Mod)
    case Cmp => ExecCmp(s)
    case Not => ExecNot(s)
    case Push => ExecPush(s)
    case Pop => ExecPop(s)
    case Call => ExecCall(s)
    case Ret => ExecRet(s)
    case Jmp => ExecJump(s, true)
    case Jeq => ExecJump(s, s.E == 1)
    case Jne => ExecJump(s, s.E == 0)
  }

  /** The outcome and state an execution result leaves: a stopped
      instruction changes nothing. */
  function Settle(s: State, r: Result<State>): (Outcome, State) {
    match r
    case Ok(t) => (Continue, t)
    case Stop(o) => (o, s)
  }

  /** One iteration of the dispatch loop: fetch the opcode at pc, decode it
      and execute it. */
  function Step(s: State): (r: (Outcome, State))
    requires WellFormed(s)
    ensures WellFormed(r.1)
    ensures r.0 != Continue ==> r.1 == s
    ensures !(0 <= s.pc < RAM_SIZE) ==> r.0 == Trap(AddressOutOfRange(s.pc))
  {
    if !(0 <= s.pc < RAM_SIZE) then (Trap(AddressOutOfRange(s.pc)), s)
    else
      match Decode(s.ram[s.pc])
      case None => (Trap(UnknownInstruction(s.ram[s.pc], s.pc)), s)
      case Some(op) => Settle(s, Execute(s, op))
  }

  /** Step functions defined on every well-formed state that keep it well-formed. */
  ghost predicate Closed(step: State --> (Outcome, State)) {
    forall t :: WellFormed(t) ==> step.requires(t) && WellFormed(step(t).1)
  }

  /** A loop around `step`, run for at most `fuel` steps: the outcome of the
      step that stopped it (Continue if the fuel ran out first) and the final
      state. */
  function Iterate(step: State --> (Outcome, State), s: State, fuel: nat): (r: (Outcome, State))
    requires Closed(step) && WellFormed(s)
    ensures WellFormed(r.1)
    ensures fuel == 0 ==> r == (Continue, s)
    decreases fuel
  {
    if fuel == 0 then (Continue, s)
    else
      var r := step(s);
      if r.0 == Continue then Iterate(step, r.1, fuel - 1) else r
  }

  lemma StepClosed()
    ensures Closed(Step)
  {
  }

  /** The dispatch loop `while not halted`, run for at most `fuel` steps. */
  function Run(s: State, fuel: nat): (r: (Outcome, State))
    requires WellFormed(s)
    ensures WellFormed(r.1)
    ensures fuel == 0 ==> r == (Continue, s)
  {
    StepClosed();
    Iterate(Step, s, fuel)
  }

  /** One iteration of the dispatch loop, unfolded: after a step from s to t
      with outcome o, the loop goes on from t or stops with (o, t). */
  lemma RunUnfold(s: State, fuel: nat, o: Outcome, t: State)
    requires WellFormed(s) && fuel > 0 && Step(s) == (o, t)
    ensures WellFormed(t)
    ensures Run(s, fuel) == if o == Continue then Run(t, fuel - 1) else (o, t)
  {
    StepClosed();
  }
}
