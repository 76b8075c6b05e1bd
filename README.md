# LS-8 emulator core, modelled in Dafny

This project models the core of an emulator for the LS-8, an 8-bit register
machine. That core is the `CPU` class of `cpu.py`. It has:

- a 256-cell memory, read and written by `ram_read` and `ram_write` and filled by `load`;
- eight general-purpose registers;
- a program counter `pc` and a stack pointer `sp` (256 at start);
- three comparison flags `E`, `L` and `G`;
- an ALU (`alu`) that dispatches on an operation name;
- two stack primitives, `push_value` and `pop_value`;
- the fetch-decode-execute loop `run`: one `if/elif` chain over twenty opcode bytes.

The model has two layers:

- **Specification as values** (modules `Opcodes`, `Alu`, `Machine`):
  - a `State` datatype;
  - one function per instruction;
  - `Machine.Step` for one pass of the loop and `Machine.Run` for a fuel-bounded run.
- **The emulator itself** (module `Cpu`): the class `CPU` keeps memory and
  registers in `array<int>`s and `pc`, `sp`, `E`, `L`, `G` and the printed
  output in fields. Each method changes these in place. Its `ensures` ties the
  new state (`Snapshot()`) to the specification function applied to the old
  state.

The properties the source promises are lemmas about the specification
functions. They live in module `Properties` (single instructions and
two-instruction linkage) and module `Programs` (whole programs from boot).
Module `Findings` holds the two branches of `run` that do not behave as
intended when written as they are.

Modelling choices:

- Registers and memory cells hold unbounded integers, as in the source: no
  write truncates to 8 bits.
- The ALU follows the host language's integer semantics:
  - AND, OR and XOR act on the infinite two's-complement form
    (`Alu.BitAnd`, `Alu.BitOr`, `Alu.BitXor`). Each is checked bit by bit
    against `Alu.Bit`.
  - NOT is `-x - 1`.
  - `%` is floor modulo: the remainder takes the divisor's sign (`Alu.FloorMod`).
  - `>>` rounds toward minus infinity (`Alu.ShiftRightIsFloorDivision`).
  - A negative shift count is an error.
- Out-of-range indexing does not crash the model. The source would raise an
  exception, or silently wrap a negative index. The model reports it instead
  as a `Trap` outcome that leaves the state unchanged. This covers:
  - `pc` or an operand address outside 0..255;
  - an operand that is not a register index 0..7;
  - a stack pointer with no cell to push to or pop from.
- PRN appends to `output` instead of printing.
- An unknown opcode is `Trap(UnknownInstruction(opcode, pc))` instead of
  exiting with status 1.

The model follows the code, including its order of reads and writes (CALL
reads its operand byte after pushing the return address, so a push onto that
byte changes the register it jumps through), with two exceptions:

- **MOD zero guard.** The code's guard tests a stale variable, not the divisor.
  The model decodes both operands first and halts with `ModByZero` exactly when
  the divisor register is 0. See Findings.
- **NOT.** The code calls the two-argument `alu` with one argument, which
  raises. The model gives NOT one operand and complements the register. See
  Findings.

Although the LS-8 is an 8-bit machine, the code never truncates register
values to 8 bits, and neither does the model.

## Model

| member | source | states |
|---|---|---|
| Opcodes.Decode | cpu.py:5-24 | the byte-to-opcode decoding of the dispatch chain: a decoded byte is exactly the encoding of its opcode, and an undecoded byte encodes no opcode |
| Opcodes.DecodeEncode | cpu.py:5-24 | decoding the byte of any opcode gives that opcode back |
| Opcodes.EncodingFields | cpu.py:5-24 | the two high bits of each opcode byte give its operand count, and bit 4 is set exactly for CALL, RET, JMP, JEQ and JNE |
| Machine.Initial | cpu.py:29-40 | a new machine has all 256 cells and 8 registers zero, pc 0, sp 256, E = L = G = 0 and no output |
| Cpu.CPU.constructor | cpu.py:29-40 | the constructed object's state is `Machine.Initial()`, with fresh memory and register arrays |
| Cpu.CPU.RamRead | cpu.py:42-44 | returns the cell at the address, for any address in memory |
| Cpu.CPU.RamWrite | cpu.py:48-49 | the cell at the address becomes the value; nothing else changes |
| Machine.Loaded | cpu.py:51-68 | after a load, cells 0..n-1 hold the program image and cells n..255 are unchanged |
| Machine.Image | cpu.py:54-64 | the image is the given program, or the built-in LDI R0,8; PRN R0; HLT when the program is empty |
| Cpu.CPU.Load | cpu.py:51-68 | the copy loop leaves memory equal to `Loaded(old memory, program)` and changes nothing else |
| Alu.Apply | cpu.py:70-112 | a binary operation fails exactly for MOD by zero (ZeroDivisor) and for SHL/SHR by a negative count (NegativeShiftCount carrying the count); the values are stated by `Alu.ApplyValues` |
| Alu.ApplyValues | cpu.py:70-112 | the value of each operation that succeeds: sum, difference, product; AND, OR and XOR bit by bit; `x << y` = x * 2^y; `x >> y` = x / 2^y rounded down; MOD the remainder with the divisor's sign satisfying x = y * floor(x / y) + m |
| Cpu.CPU.AluBinary | cpu.py:70-112 | the result is `Apply(op, reg[a], reg[b])`; on a value, register a becomes it and no other register changes; on an error, no register changes |
| Alu.Compare | cpu.py:84-95 | CMP sets E iff equal, L iff less, G iff greater; exactly one of them is 1 and the others are 0 |
| Cpu.CPU.AluCompare | cpu.py:84-95 | the flags become `Compare(reg[a], reg[b])`; registers and memory are untouched |
| Alu.BitAnd | cpu.py:96-97 | `x & y` on unbounded integers: negative iff both operands are; between 0 and each non-negative operand |
| Alu.AndBit | cpu.py:96-97 | bit i of `x & y` is 1 iff bit i of both x and y is 1 |
| Alu.BitOr | cpu.py:98-99 | `x \| y`: negative iff either operand is; at least each operand when both are non-negative |
| Alu.OrBit | cpu.py:98-99 | bit i of `x \| y` is 1 iff bit i of x or of y is 1 |
| Alu.BitXor | cpu.py:100-101 | `x ^ y`: negative iff exactly one operand is |
| Alu.XorBit | cpu.py:100-101 | bit i of `x ^ y` is 1 iff bits i of x and y differ |
| Alu.ComplementBit | cpu.py:102-103 | `~x` flips every bit of x |
| Cpu.CPU.AluNot | cpu.py:102-103 | register a becomes its complement and no other register changes |
| Alu.ShiftLeftIsMultiplication | cpu.py:104-105 | `x << n` equals x times 2^n |
| Alu.ShiftRightShiftLeft | cpu.py:104-107 | shifting left by n and then right by n gives x back |
| Alu.ShiftRightIsFloorDivision | cpu.py:106-107 | `x >> n` equals x divided by 2^n rounded toward minus infinity, for every integer x, negative ones included |
| Alu.FloorMod | cpu.py:108-109 | `x % y` for y != 0: x = y * floor(x / y) + r, with 0 <= r < y for y > 0 and y < r <= 0 for y < 0 |
| Machine.StackPush | cpu.py:134-139 | a push moves sp down by one and stores the value at the new sp; every other cell, the registers, pc and output are unchanged, and a pop is then possible |
| Machine.StackPop | cpu.py:141-146 | a pop returns the cell at sp and moves sp up by one, changing nothing else; a push is then possible |
| Properties.PopAfterPush | cpu.py:134-146 | a pop after a push returns the pushed value and restores sp; the push changed only the cell at the old sp - 1 |
| Cpu.CPU.PushValue | cpu.py:134-139 | sp is decremented and the value stored at the new sp, as `StackPush` |
| Cpu.CPU.PopValue | cpu.py:141-146 | returns the cell at sp and increments sp, as `StackPop` |
| Machine.Read | cpu.py:42-44 | an operand read succeeds iff the address is in memory and yields that cell; otherwise it reports AddressOutOfRange with the address |
| Machine.AsReg | cpu.py:74 | an operand names a register iff it is 0..7; otherwise RegisterOutOfRange with the operand |
| Machine.Step | cpu.py:148-290 | one pass of the loop; a step that does not continue leaves the state unchanged |
| Cpu.CPU.Step | cpu.py:151-290 | the opcode chain changes the object exactly as `Machine.Step` changes the state value, and returns the same outcome |
| Cpu.CPU.Ldi | cpu.py:161-165 | the object's new state and outcome are those of the LDI instruction function |
| Cpu.CPU.Prn | cpu.py:171-174 | the object's new state and outcome are those of the PRN instruction function |
| Cpu.CPU.Binary | cpu.py:154-283 | the object's new state and outcome are those of the binary ALU instruction function, for the branches ADD (154-158), MUL (166-170), AND, OR and XOR (243-259), SHL and SHR (266-276) and MOD (278-283) |
| Cpu.CPU.Cmp | cpu.py:237-241 | the object's new state and outcome are those of the CMP instruction function |
| Cpu.CPU.Not | cpu.py:261-264 | the object's new state and outcome are those of the one-operand NOT instruction function |
| Cpu.CPU.PushInstruction | cpu.py:176-185 | the object's new state and outcome are those of the PUSH instruction function |
| Cpu.CPU.PopInstruction | cpu.py:187-195 | the object's new state and outcome are those of the POP instruction function |
| Cpu.CPU.CallInstruction | cpu.py:197-205 | the object's new state and outcome are those of the CALL instruction function, which reads the operand byte after the push as the source does |
| Cpu.CPU.RetInstruction | cpu.py:207-212 | the object's new state and outcome are those of the RET instruction function |
| Cpu.CPU.Jump | cpu.py:215-235 | the object's new state and outcome are those of JMP, JEQ and JNE |
| Machine.Iterate | cpu.py:150-151 | a loop around a step function that keeps states well formed keeps the final state well formed; with no fuel left it is still running and changes nothing |
| Machine.StepClosed | cpu.py:151-290 | one pass of the dispatch loop is defined on every well-formed state and yields a well-formed state |
| Machine.Run | cpu.py:150-151 | a run with no fuel left is still running and changes nothing; every run ends in a well-formed state |
| Machine.RunUnfold | cpu.py:150-151 | one iteration of `while not halted`: after a step to t with outcome o, the run goes on from t with one step less if o is Continue, and otherwise stops with (o, t) |
| Cpu.CPU.LoopIteration | cpu.py:150-290 | one pass through the loop body changes the object so that the remaining run from the old state equals the remaining run from the new state, or stops here with the step's outcome |
| Cpu.CPU.Run | cpu.py:148-151 | the `while not halted` loop leaves the object's state and outcome equal to `Machine.Run(old state, fuel)` |
| Properties.HltHalts | cpu.py:159-160 | HLT stops the loop and changes nothing, pc included |
| Properties.LdiLoadsImmediate | cpu.py:161-165 | LDI sets `reg[ram[pc+1]] := ram[pc+2]`, advances pc by 3 and changes nothing else |
| Properties.PrnOutputsRegister | cpu.py:171-174 | PRN appends the named register's value to the output, advances pc by 2 and changes nothing else |
| Properties.BinaryWritesFirstRegister | cpu.py:73-83 | a binary ALU instruction that succeeds sets register a to `reg[a] op reg[b]`, advances pc by 3, and leaves other registers, memory, sp, flags and output untouched |
| Properties.ModByZeroHalts | cpu.py:278-286 | MOD halts with the error report iff the divisor register is 0, changing nothing; otherwise it stores the floor remainder |
| Properties.NegativeShiftFaults | cpu.py:266-276 | SHL or SHR by a negative register value faults with that count and changes nothing |
| Properties.CmpSetsExactlyOneFlag | cpu.py:237-241 | after CMP exactly one flag is 1, matching ==, < or >; registers, memory, sp and output are unchanged; pc advances by 3 |
| Properties.NotComplements | cpu.py:261-264 | NOT replaces the register by its complement and advances pc by 2 |
| Properties.JmpJumps | cpu.py:215-219 | JMP sets pc to the named register's value and changes nothing else |
| Properties.PushStores | cpu.py:176-185 | PUSH stores the register's value at sp - 1, moves sp down to it, advances pc by 2 and changes nothing else |
| Properties.PopLoads | cpu.py:187-195 | POP copies the cell at sp into the register, moves sp up by one, advances pc by 2 and leaves memory unchanged |
| Properties.StackBoundsTrap | cpu.py:176-212 | PUSH or CALL with sp at 0 faults with StackOutOfRange(-1), and POP or RET with sp at 256 faults with StackOutOfRange(256); the state is unchanged (at sp 0 the host would instead wrap to the last cell, as listed under Left out) |
| Properties.ConditionalJumps | cpu.py:221-235 | JEQ jumps to the register's value iff E == 1 and JNE iff E == 0; otherwise pc += 2 without reading the operand; nothing else changes |
| Properties.PcAdvancesByWidth | cpu.py:154-286 | every completed instruction that does not set pc advances it by 1 + its operand count: 3 for the two-operand ones, 2 for PRN, PUSH, POP and NOT |
| Properties.ExecuteFrame | cpu.py:154-286 | every instruction that completes changes memory at most in the cell below sp, only appends at most one value to the output, and moves sp by at most one |
| Properties.StepFrame | cpu.py:151-290 | any single step changes memory at most in the cell below sp, only appends at most one value to the output, and moves sp by at most one |
| Properties.UnknownInstructionTraps | cpu.py:288-290 | an unrecognised opcode byte stops the loop with its value and address before anything executes |
| Properties.PushThenPop | cpu.py:176-195 | PUSH ra then POP rb puts ra's value in rb, returns sp to its value before the PUSH, and advances pc by 4 |
| Properties.CallThenRet | cpu.py:197-212 | CALL pushes pc+2 and jumps to the value of the register named by its operand byte as it reads after the push; a later RET, with sp back there and that cell intact, sets pc to the address after the CALL and restores sp |
| Properties.CallReadsOperandAfterPush | cpu.py:197-204 | when the push lands on CALL's own operand byte, CALL jumps through register pc+2 (the return address just written), or traps with RegisterOutOfRange(pc+2) when that is not a register, leaving the state unchanged |
| Properties.LdiThenPrn | cpu.py:161-174 | LDI r,v followed by PRN r outputs v |
| Properties.RunStopsForGood | cpu.py:150-151 | once the loop has stopped, more fuel changes neither outcome nor state |
| Properties.RunSplits | cpu.py:150-151 | running m steps and then n more is running m + n steps |
| Properties.RunEndsAtStop | cpu.py:150-151 | a stopped run ends in a state whose next step stops with the same outcome and changes nothing, so the loop cannot resume |
| Properties.IterateStopsForGood | cpu.py:150-151 | for any step function, once the loop has stopped more fuel changes neither outcome nor state |
| Properties.IterateEndsAtStop | cpu.py:150-151 | for a step function that changes nothing when it stops, a stopped loop ends where the next step stops the same way |
| Properties.IterateSplits | cpu.py:150-151 | for any step function, m iterations followed by n more are m + n iterations |
| Programs.Boot | cpu.py:29-68 | a fresh machine with an image loaded holds the image from address 0, zero registers, pc 0, sp 256 and no output |
| Programs.BootZeroElsewhere | cpu.py:29-68 | past the loaded image a fresh machine's memory is zero, and its flags are clear |
| Programs.TwoLdis | cpu.py:161-165 | two LDIs at addresses 0 and 3, run for two steps, load their registers (the second wins on a clash), leave pc at 6 and change nothing else |
| Programs.ModAfterTwoLdis | cpu.py:278-286 | LDI r1,0; LDI r2,w; MOD r2,r1 stops on its third step with the error report, in the state the two LDIs left |
| Programs.DefaultProgramPrintsEight | cpu.py:57-64 | the built-in program outputs exactly [8] and halts |
| Programs.ModByZeroProgramHalts | cpu.py:278-286 | a program that takes MOD by a zero register halts with the error report before its PRN |
| Programs.UnknownFirstByteTraps | cpu.py:288-290 | a program starting with byte 0xFF traps at address 0 with nothing executed |
| Findings.ModAsWritten | cpu.py:278-286 | the MOD branch as written halts iff the stale operand2 is 0; if it raises on a known stale value, the divisor register was 0 |
| Findings.TwoLdisReachMod | cpu.py:161-165 | booting LDI R1,v; LDI R0,w; MOD R0,R1; HLT and running two steps reaches the MOD at pc 6 with R1 = v and R0 = w, nothing else changed |
| Findings.ModStatesAreReached | cpu.py:161-165 | the two MOD states the findings use are exactly the states their programs reach after the two LDIs |
| Findings.ModGuardReadsStaleOperand | cpu.py:278-286 | two concrete states where the as-written guard goes wrong while `Machine.Step` is right |
| Findings.NotAsWritten | cpu.py:261-264 | the NOT branch as written never completes: IndexError when pc + 1 is outside the indexes the host list accepts (-256..255), otherwise TypeError |
| Findings.NotNeverCompletesAsWritten | cpu.py:261-264 | on a valid NOT, the as-written branch raises TypeError while the model continues |

## Left out

- DIV (cpu.py:82-83) uses true division and yields floats, and no opcode reaches it. It is not modelled.
- SUB is an ALU case (`Alu.Apply`, `Cpu.CPU.AluBinary`), but no opcode reaches it from the loop.
- `trace` (cpu.py:114-132) is console diagnostics. It is not modelled.
- The `print` in PRN becomes an append to `output`.
- The `print('Error')` of the MOD guard becomes the `ModByZero` outcome.
- The `sys.exit(1)` on an unknown opcode becomes the `Trap(UnknownInstruction(..))` outcome. Process exit is not modelled.
- The `ir`, `mar` and `mdr` fields are bookkeeping with no observable effect. They are not modelled.
- `ls8.py` reads the command line and a text file of binary digit strings. That I/O is not modelled. Its result appears only as the already-parsed `program: seq<int>` given to `load`.
- Cpu.CPU.Run: the source loop is unbounded. The model runs it for at most `fuel` steps and reports `Continue` if the fuel runs out first.
- Cpu.CPU.RamRead: requires an address in 0..255. The source would wrap a negative address to the end of memory and raise for 256 and above.
- Cpu.CPU.RamWrite: requires an address in 0..255, for the same reason as RamRead.
- Cpu.CPU.Load: requires at most 256 bytes. The source raises after filling memory when given more.
- Cpu.CPU.PushValue: requires 0 < sp <= 256. At sp == 0 the source writes to the last cell through negative indexing. The instruction methods check this first and report `StackOutOfRange`.
- Cpu.CPU.PopValue: requires 0 <= sp < 256. At sp == 256 the source raises. The instruction methods check this first and report `StackOutOfRange`.
- Faults leave the state unchanged. Some source branches modify state before raising, for example PUSH decrements sp before reading the register, and CALL pushes the return address before reading its operand. That partial update is not modelled, because the exception ends the program.
- Register and memory values are never truncated to 8 bits, as in the source. Overflow of a real 8-bit machine is therefore not modelled.
- The shift count's size is not bounded. A huge shift that would exhaust memory in the host is not modelled.

## Findings

| source | as written | input that shows it | evidently intended | confidence | as-written member | corrected member |
|---|---|---|---|---|---|---|
| cpu.py:278-286 | the MOD branch tests `operand2 != 0` before reading this instruction's operands, so it tests the second operand byte of an earlier instruction (or an unbound name), and the division itself is unguarded | `LDI R1,0; LDI R0,5; MOD R0,R1` raises ZeroDivisionError; `LDI R1,3; LDI R0,0; MOD R0,R1` halts with "Error" though 0 % 3 is defined | decode both operands, then halt with the error report iff the divisor register is 0 | high; not executed | Findings.ModGuardReadsStaleOperand | Properties.ModByZeroHalts |
| cpu.py:261-264 | NOT calls `alu('NOT', operand1)` with one argument, but `alu` takes two, so every NOT raises TypeError | any NOT with a valid register operand | complement the one register and advance pc by 2 | high; not executed | Findings.NotNeverCompletesAsWritten | Properties.NotComplements |
