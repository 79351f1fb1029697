# Golden model and lockstep test of the simple 8-bit CPU

This project models the software side of the simple-ISA CPU testbench.

- The golden reference CPU `sCPU` holds an 8-bit PC, four 8-bit registers and a byte-addressed instruction memory. It executes LOAD, ADD and BNER0 instructions of one byte each.
- The lockstep harness in `main_test.cpp` loads a 16-byte program and resets both CPUs. It then runs 40 cycles, comparing the PC and the four registers of the Verilated hardware CPU with the golden CPU after every cycle. It exits with 0 exactly when no comparison failed.

The model has four modules:

- `Isa` (isa.dfy) is the pure instruction set: decode and encode, one execution step, and its properties.
- `GoldenCpu` (golden_cpu.dfy) is the class `Cpu` with the fields of `sCPU`. Every method is proved against `Isa` through `State()`.
- `Lockstep` (lockstep.dfy) holds `compare_cpus`, one loop iteration and the run loop. Each is proved to report exactly the mismatching fields. The verdict `all_match` is proved true exactly when every cycle is clean.
- `MainTest` (main_test.dfy) holds the reset sequence, `main`, and what the golden CPU computes on the test program. The program sums 1 + ... + 10 into r2 and then spins at address 7.

The hardware CPU is not modelled as RTL. It is a value `Hardware<H>` made of three functions:

- a clock period with the reset pin at a given level;
- the PC debug output;
- the register debug outputs.

Every statement about a run therefore holds for any hardware.

The hardware program counter is 4 bits wide and wraps from 15 to 0 (program_counter_test.cpp:95-107). The golden `pc_` is a `uint8_t`, and both `pc_++` and `setPc` leave it unmasked, so it wraps modulo 256. The model follows the code. `Isa.PcAdvances` states the 15 → 16 step, and `Lockstep.FourBitPcDiverges` shows that a 4-bit hardware PC is then reported as a mismatch. `MainTest.ProgramStaysInRange` shows that the test program never reaches that point.

## Model

| member | source | states |
|---|---|---|
| Isa.DecodeEncode | sCPU.cpp:71-114 | Decoding the byte of any instruction gives that instruction back, so the opcode tests and field extractions recover every field. |
| Isa.EncodeDecode | sCPU.cpp:71-114 | Every byte is the encoding of what it decodes to, so the four opcode formats partition the 256 bytes. |
| Isa.OpcodeMask | sCPU.cpp:71 | `(instruction >> 6) & 0x3` is the byte divided by 64. |
| Isa.DestMask | sCPU.cpp:89 | `(instruction >> 4) & 0x3` is bits 5-4 of the byte. |
| Isa.Src1Mask | sCPU.cpp:90 | `(instruction >> 2) & 0x3` is bits 3-2 of the byte. |
| Isa.Src2Mask | sCPU.cpp:91 | `instruction & 0x3` is the byte modulo 4. |
| Isa.TargetMask | sCPU.cpp:103 | `(instruction >> 2) & 0xF` is bits 5-2 of the byte. |
| Isa.ImmediateMask | sCPU.cpp:78 | `instruction & 0xF` is the byte modulo 16. |
| Isa.ExecuteLoad | sCPU.cpp:75-85 | Opcode 10 writes the 4-bit immediate into register DD, reports that write and increments the PC modulo 256. |
| Isa.ExecuteAdd | sCPU.cpp:87-98 | Opcode 00 writes (S1 + S2) mod 256 into DD, reports that write and increments the PC. |
| Isa.ExecuteBner0 | sCPU.cpp:100-111 | Opcode 11 jumps to AAAA when register S2 differs from r0, otherwise increments the PC. It writes no register. |
| Isa.ExecuteUnused | sCPU.cpp:112-114 | Opcode 01 only increments the PC. |
| Isa.ExecuteFrame | sCPU.cpp:69-117 | A step never changes the instruction memory and reports a write exactly for LOAD and ADD. The reported value lands in the reported register, and no other register changes. |
| Isa.PcAdvances | sCPU.cpp:85-113 | Unless a branch is taken, the PC becomes (pc + 1) mod 256: 255 wraps to 0 and 15 goes on to 16. |
| Isa.BranchTargetIsNibble | sCPU.cpp:103-107 | A taken branch lands on the 4-bit target field, below 16. |
| Isa.FetchPastEnd | sCPU.cpp:58-64 | Past the end of memory the fetched byte is 0, i.e. ADD r0, r0, r0. It doubles r0 mod 256 and leaves the registers alone exactly when r0 is 0. |
| Isa.StepsAdd | main_test.cpp:138-154 | A general fact about iterating the golden step, which the loop takes once per cycle: running a steps and then b steps is running a + b steps. |
| Isa.ControlUnitVectors | control_unit_test.cpp:33-97 | The bytes 0x39, 0x9F and 0xD6 of the control-unit tests decode to ADD r3, r2, r1; LOAD r1, 15; and BNER0 to 5 on r2. |
| Isa.AddOverflow | alu_test.cpp:70-76 | ADD of 0xFF and 0x01 gives 0x00. |
| Isa.LoadZeroExtends | immediate_extend_test.cpp:31-51 | LOAD stores its immediate zero-extended, below 16. |
| GoldenCpu.Cpu.constructor | sCPU.cpp:14-23 | A new CPU has PC 0, four zero registers and an empty instruction memory. |
| GoldenCpu.Cpu.GetPc | sCPU.cpp:31-33 | Returns the PC. |
| GoldenCpu.Cpu.SetPc | sCPU.cpp:35-37 | Stores the given PC unmasked and changes nothing else. |
| GoldenCpu.Cpu.GetRegister | sCPU.cpp:40-45 | Indices 0-3 read the register; indices 8 and up read 0. |
| GoldenCpu.Cpu.SetRegister | sCPU.cpp:47-51 | Indices 0-3 write exactly that register; indices 8 and up change nothing. |
| GoldenCpu.Cpu.LoadInstructions | sCPU.cpp:54-56 | Replaces the instruction memory; PC and registers stay. |
| GoldenCpu.Cpu.FetchInstruction | sCPU.cpp:58-64 | Returns the byte at the index, or 0 at or past the end of memory. |
| GoldenCpu.Cpu.ExecuteInstruction | sCPU.cpp:69-117 | The new state is one `Isa.Step` of the old one. It returns true exactly when a register was written, and then reports that register and value. Otherwise the reference parameters are untouched. |
| Lockstep.RegMismatchesExact | main_test.cpp:35-52 | Among registers 0 .. n-1, a register is reported exactly when it differs, with both values, and nothing else is reported. |
| Lockstep.RegMismatchesOrdered | main_test.cpp:35-52 | The loop over registers 0 .. n-1 reports only registers below n, in strictly increasing order, so at most n reports and none twice. |
| Lockstep.MismatchesExact | main_test.cpp:21-55 | Every differing field is reported, and every report names a differing field with its hardware and golden values. No field is reported twice, so there are as many reports as differing fields, at most five. There are no reports exactly when all five values agree. |
| Lockstep.CompareCpus | main_test.cpp:21-55 | Reports the PC and then registers 0-3 in that order, exactly as `Mismatches`. Returns true exactly when the hardware outputs equal the golden PC and registers. |
| Lockstep.LockstepCycle | main_test.cpp:140-160 | One iteration checks the PCs, clocks the hardware once with reset low, takes one golden step and compares. Its reports are exactly that cycle's reports, and it is clean exactly when it reports nothing. |
| Lockstep.Run | main_test.cpp:138-170 | After `cycles` iterations the hardware is clocked `cycles` times and the golden CPU has taken `cycles` steps. The reports are the concatenation of every cycle's reports, and `all_match` holds exactly when there are none. |
| Lockstep.CycleReportsIff | main_test.cpp:140-160 | A cycle reports nothing exactly when the PCs agree before the clock edge and all five values agree after it. |
| Lockstep.RunMatchesIff | main_test.cpp:121-160 | A run reports nothing exactly when every one of its cycles is clean. |
| Lockstep.MirrorTracks | main_test.cpp:149-154 | If the hardware performs the golden step under an abstraction of its state, it follows the golden trajectory for any number of cycles. |
| Lockstep.MirroringHardwareMatches | main_test.cpp:138-170 | Hardware that mirrors the golden model and starts in the same state reports nothing in a run of any length. |
| Lockstep.FourBitPcDiverges | program_counter_test.cpp:95-107 | Take a hardware PC that wraps 15 → 0 like the tested 4-bit counter, starting a cycle at PC 15 with no branch taken. That cycle reports a PC mismatch of 0 against the golden 16. |
| MainTest.Reset | main_test.cpp:126-134 | Reset clocks the hardware twice with reset high and sets only the golden PC to 0. |
| MainTest.RunMainTest | main_test.cpp:96-192 | The exit status is 0 or 1, and it is 0 exactly when the 40-cycle run from reset reports nothing. The golden CPU ends after 40 steps of the program. |
| MainTest.PrologueDecodes | main_test.cpp:101-104 | Bytes 0-3 are `li r0, 10`, `li r1, 0`, `li r2, 0` and `li r3, 1`, as their comments say. |
| MainTest.LoopDecodes | main_test.cpp:105-108 | Bytes 4-7 are `add r1, r1, r3`, `add r2, r2, r1`, `bner0 r1, 4` and `bner0 r3, 7`, as their comments say. |
| MainTest.StepLoad | main_test.cpp:101-104 | At addresses 0-3 one step loads 10, 0, 0 and 1 into r0-r3. |
| MainTest.StepLoop | main_test.cpp:105-108 | At addresses 4-7 one step does r1 += r3, r2 += r1, a branch back to 4 while r1 != r0, and a branch to 7 while r3 != r0. |
| MainTest.IncrementStep | main_test.cpp:105 | In pass j, address 4 raises r1 from j to j + 1. |
| MainTest.SumStep | main_test.cpp:106 | In pass j, address 5 raises r2 from 0 + ... + j to 0 + ... + (j + 1). |
| MainTest.BranchStep | main_test.cpp:107 | Address 6 goes back to 4 for the next pass until r1 reaches r0 = 10, then goes on to 7. |
| MainTest.ProgramTrajectory | main_test.cpp:100-117 | The golden state after n steps of the program is given in closed form: four loads, ten passes of three instructions, then the self-loop. |
| MainTest.SelfLoop | main_test.cpp:108 | At address 7 with r3 != r0, a step leaves the state unchanged. |
| MainTest.TriangleClosedForm | main_test.cpp:105-107 | The running sum the loop builds, 0 + ... + k, is k(k + 1)/2. |
| MainTest.ProgramHalts | main_test.cpp:105-108 | From step 34 on, the golden CPU is at address 7 with r0 = r1 = 10, r2 = 1 + ... + 10 = 55 and r3 = 1. |
| MainTest.GoldenRun | main_test.cpp:9 | After the 40 compared cycles the golden state is PC 7 with registers 10, 10, 55, 1. |
| MainTest.ProgramStaysInRange | main_test.cpp:100-117 | However long the program runs, the golden PC stays at or below 7, so it never meets the 4-bit wrap point. |
| MainTest.MirroringHardwarePasses | main_test.cpp:126-192 | Hardware that mirrors the golden model and leaves reset in the golden start state passes the test and ends showing PC 7 and registers 10, 10, 55, 1. |

## Left out

- The RTL of the hardware CPU (Verilated `Vmain`) and its component testbenches are not part of this model. The hardware is a parameter, seen through one clock period and its debug outputs. The component tests appear only as the cross-check lemmas above.
- Waveform dumping (`VerilatedVcdC`), simulation time, `print_state` and all console text are output only. A reported line is modelled as a `Report` value carrying its cycle, field and two values, not as text.
- `new`/`delete` and the `sCPU` destructor are not modelled; they carry no behaviour.
- GoldenCpu.Cpu.GetRegister and GoldenCpu.Cpu.SetRegister require an index below 4 or at least 8. The C++ guard is `< 8`, so indices 4-7 access past the four-entry `regs_` array, which is undefined behaviour.
- `written_reg` and `written_value` are uninitialised in `main`. The model passes arbitrary values, and the contract of ExecuteInstruction holds for any of them.
- Lockstep.Run factors the loop body into Lockstep.LockstepCycle, and `all_match := all_match && clean` stands for the source's "clear the flag on a desync or mismatch". The two are equivalent.
- The printing condition `cycle < 10 || cycle % 10 == 0 || !match` only decides what is printed, so it is left out.
