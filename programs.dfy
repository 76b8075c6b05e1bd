/** Whole programs run from a freshly constructed machine. */
module Programs {
  import opened Opcodes
  import opened Machine
  import opened Properties

  /** A fresh machine with a program image loaded at address 0. */
  function Boot(program: seq<int>): (s: State)
    requires |program| <= RAM_SIZE
    ensures WellFormed(s) && s.pc == 0 && s.sp == RAM_SIZE && s.output == []
    ensures forall a :: 0 <= a < |Image(program)| ==> s.ram[a] == Image(program)[a]
    ensures forall r :: 0 <= r < REG_COUNT ==> s.reg[r] == 0
  {
    Initial().(ram := Loaded(Initial().ram, program))
  }

  /** Past the image, a fresh machine's memory is zero, and its flags are
      clear. */
  lemma BootZeroElsewhere(program: seq<int>)
    requires |program| <= RAM_SIZE
    ensures var s := Boot(program);
            (forall a :: |Image(program)| <= a < RAM_SIZE ==> s.ram[a] == 0) &&
            s.E == s.L == s.G == 0
  {
  }

  /** LDI r1,v; LDI r2,w at the start of memory: two steps load both
      registers (w wins if they are the same) and reach address 6, with
      nothing else changed. */
  lemma TwoLdis(s: State, r1: int, v: int, r2: int, w: int)
    requires WellFormed(s) && s.pc == 0 && 0 <= r1 < REG_COUNT && 0 <= r2 < REG_COUNT
    requires s.ram[0] == LDI && s.ram[1] == r1 && s.ram[2] == v
    requires s.ram[3] == LDI && s.ram[4] == r2 && s.ram[5] == w
    ensures Run(s, 2) == (Continue, s.(reg := s.reg[r1 := v][r2 := w], pc := 6))
  {
    LdiLoadsImmediate(s);
    var s1 := Step(s).1;
    LdiLoadsImmediate(s1);
    RunUnfold(s, 2, Continue, s1);
    RunUnfold(s1, 1, Continue, Step(s1).1);
  }

  /** LDI r1,v; LDI r2,w; MOD r2,r1 at the start of memory with v == 0 and
      distinct registers: the third step halts with the error report, in the
      state the two LDIs left. */
  lemma ModAfterTwoLdis(s: State, r1: int, v: int, r2: int, w: int)
    requires WellFormed(s) && s.pc == 0 && 0 <= r1 < REG_COUNT && 0 <= r2 < REG_COUNT && r1 != r2
    requires s.ram[0] == LDI && s.ram[1] == r1 && s.ram[2] == v
    requires s.ram[3] == LDI && s.ram[4] == r2 && s.ram[5] == w
    requires s.ram[6] == MOD && s.ram[7] == r2 && s.ram[8] == r1 && v == 0
    ensures Run(s, 3) == (ModByZero, s.(reg := s.reg[r1 := v][r2 := w], pc := 6))
  {
    TwoLdis(s, r1, v, r2, w);
    var s2 := Run(s, 2).1;
    ModByZeroHalts(s2);
    RunSplits(s, 2, 1);
    RunUnfold(s2, 1, ModByZero, s2);
  }

  /** With no program given, the built-in LDI R0,8; PRN R0; HLT prints 8 and
      halts, however much fuel the loop is given beyond its three steps. */
  lemma DefaultProgramPrintsEight(fuel: nat)
    requires fuel >= 3
    ensures Run(Boot([]), fuel).0 == Halt
    ensures Run(Boot([]), fuel).1.output == [8]
  {
    var s0 := Boot([]);
    LdiLoadsImmediate(s0);
    var s1 := Step(s0).1;
    assert s1.pc == 3 && s1.reg[0] == 8;
    PrnOutputsRegister(s1);
    var s2 := Step(s1).1;
    assert s2.pc == 5 && s2.output == [8];
    HltHalts(s2);
    RunUnfold(s0, 3, Continue, s1);
    RunUnfold(s1, 2, Continue, s2);
    RunUnfold(s2, 1, Halt, s2);
    RunStopsForGood(s0, 3, fuel - 3);
  }

  /** LDI R1,0; LDI R0,5; MOD R0,R1; PRN R0; HLT: the MOD finds a zero
      divisor, so the machine halts with the error report and PRN never runs. */
  const MOD_BY_ZERO_PROGRAM: seq<int> := [LDI, 1, 0, LDI, 0, 5, MOD, 0, 1, PRN, 0, HLT]

  lemma ModByZeroProgramHalts(fuel: nat)
    requires fuel >= 3
    ensures Run(Boot(MOD_BY_ZERO_PROGRAM), fuel).0 == ModByZero
    ensures Run(Boot(MOD_BY_ZERO_PROGRAM), fuel).1.output == []
  {
    var s0 := Boot(MOD_BY_ZERO_PROGRAM);
    ModAfterTwoLdis(s0, 1, 0, 0, 5);
    RunStopsForGood(s0, 3, fuel - 3);
  }

  /** A program whose first byte is not an opcode traps at address 0 without
      executing anything. */
  lemma UnknownFirstByteTraps(fuel: nat)
    requires fuel >= 1
    ensures Run(Boot([0xFF, HLT]), fuel) == (Trap(UnknownInstruction(0xFF, 0)), Boot([0xFF, HLT]))
  {
    UnknownInstructionTraps(Boot([0xFF, HLT]));
  }
}
