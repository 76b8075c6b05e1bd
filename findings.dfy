/** The MOD and NOT branches of the dispatch loop as they are written in the
    host program, next to the behaviour module Machine gives them. */
module Findings {
  import opened Opcodes
  import opened Alu
  import opened Machine
  import opened Properties
  import opened Programs

  /** What the host does on a branch: raises an exception (ending the
      program), halts the loop, or goes on in a new state. */
  datatype Effect = Raises(error: string) | Halts | Continues(t: State)

  /** The MOD branch as written: its zero test reads `operand2` before the
      branch reads this instruction's operands, so it sees the second operand
      byte of the last instruction that read one (`stale`), or no value at all
      when no instruction has; the division itself is unguarded. */
  function ModAsWritten(s: State, stale: Option<int>): (e: Effect)
    requires RegOperand(s, 1) && RegOperand(s, 2)
    ensures e.Halts? <==> stale == Some(0)
    ensures e.Raises? && stale.Some? ==> s.reg[s.ram[s.pc + 2]] == 0
  {
    match stale
    case None => Raises("UnboundLocalError")
    case Some(v) =>
      if v != 0 then
        var a, b := s.ram[s.pc + 1], s.ram[s.pc + 2];
        if s.reg[b] == 0 then Raises("ZeroDivisionError")
        else Continues(s.(reg := s.reg[a := FloorMod(s.reg[a], s.reg[b])], pc := s.pc + 3))
      else Halts
  }

  /** The machine state reached by LDI R1,0; LDI R0,5 with MOD R0,R1 next. */
  function AtModByZero(): (s: State)
    ensures At(s, Opcode.Mod) && RegOperand(s, 1) && RegOperand(s, 2)
    ensures s.pc == 6 && s.reg[s.ram[s.pc + 2]] == 0 && s.ram[s.pc - 1] == 5
  {
    var ram := [LDI, 1, 0, LDI, 0, 5, MOD, 0, 1, HLT] + seq(RAM_SIZE - 10, _ => 0);
    State(ram, [5, 0, 0, 0, 0, 0, 0, 0], 6, RAM_SIZE, 0, 0, 0, [])
  }

  /** The machine state reached by LDI R1,3; LDI R0,0 with MOD R0,R1 next. */
  function AtModByThree(): (s: State)
    ensures At(s, Opcode.Mod) && RegOperand(s, 1) && RegOperand(s, 2)
    ensures s.pc == 6 && s.reg[s.ram[s.pc + 2]] == 3 && s.ram[s.pc - 1] == 0
  {
    var ram := [LDI, 1, 3, LDI, 0, 0, MOD, 0, 1, HLT] + seq(RAM_SIZE - 10, _ => 0);
    State(ram, [0, 3, 0, 0, 0, 0, 0, 0], 6, RAM_SIZE, 0, 0, 0, [])
  }

  /** Booting LDI R1,v; LDI R0,w; MOD R0,R1; HLT and running two steps
      reaches the MOD with register 1 holding v and register 0 holding w. */
  lemma {:induction false} TwoLdisReachMod(v: int, w: int, target: State)
    requires target.ram == [LDI, 1, v, LDI, 0, w, MOD, 0, 1, HLT] + seq(RAM_SIZE - 10, _ => 0)
    requires target.reg == [w, v, 0, 0, 0, 0, 0, 0]
    requires target.pc == 6 && target.sp == RAM_SIZE && target.output == []
    requires target.E == target.L == target.G == 0
    ensures Run(Boot([LDI, 1, v, LDI, 0, w, MOD, 0, 1, HLT]), 2) == (Continue, target)
  {
    var s0 := Boot([LDI, 1, v, LDI, 0, w, MOD, 0, 1, HLT]);
    BootZeroElsewhere([LDI, 1, v, LDI, 0, w, MOD, 0, 1, HLT]);
    TwoLdis(s0, 1, v, 0, w);
    var s2 := Run(s0, 2).1;
    assert s2.ram == target.ram;
    assert s2.reg == target.reg;
  }

  /** The two states above are the ones their programs reach. */
  lemma ModStatesAreReached()
    ensures Run(Boot([LDI, 1, 0, LDI, 0, 5, MOD, 0, 1, HLT]), 2) == (Continue, AtModByZero())
    ensures Run(Boot([LDI, 1, 3, LDI, 0, 0, MOD, 0, 1, HLT]), 2) == (Continue, AtModByThree())
  {
    TwoLdisReachMod(0, 5, AtModByZero());
    TwoLdisReachMod(3, 0, AtModByThree());
  }

  /** The stale test goes wrong both ways. With a zero divisor after an LDI of
      5, the guard passes and the division raises instead of halting with the
      error report; with a divisor of 3 after an LDI of 0, the loop halts with
      the error report though the division is defined. The corrected MOD
      (module Machine) decides on the divisor register itself. */
  lemma ModGuardReadsStaleOperand()
    ensures var s := AtModByZero();
            ModAsWritten(s, Some(s.ram[s.pc - 1])) == Raises("ZeroDivisionError") &&
            Step(s) == (ModByZero, s)
    ensures var s := AtModByThree();
            ModAsWritten(s, Some(s.ram[s.pc - 1])) == Halts &&
            Step(s).0 == Continue && Step(s).1.reg[0] == 0
  {
    ModByZeroHalts(AtModByZero());
    ModByZeroHalts(AtModByThree());
  }

  /** The NOT branch as written: after reading its operand it calls the
      two-operand ALU entry point with one argument, which raises. */
  function NotAsWritten(s: State): (e: Effect)
    requires WellFormed(s)
    ensures !e.Continues?
  {
    if !(-RAM_SIZE <= s.pc + 1 < RAM_SIZE) then Raises("IndexError")
    else Raises("TypeError")
  }

  /** As written, no NOT instruction ever completes; the corrected NOT
      (module Machine) complements its register and continues. */
  lemma NotNeverCompletesAsWritten(s: State)
    requires At(s, Opcode.Not) && RegOperand(s, 1)
    ensures NotAsWritten(s) == Raises("TypeError")
    ensures Step(s).0 == Continue
  {
    NotComplements(s);
  }
}
