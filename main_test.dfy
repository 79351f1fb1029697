/**
  The main lockstep test of main_test.cpp: load the 16-byte program, reset
  both CPUs, run 40 compared cycles and exit with 0 exactly when nothing
  was reported. Also what the golden model computes on that program: it sums
  1 + 2 + ... + 10 into r2 and then spins on `bner0 r3, 7` at address 7.
*/
module MainTest {
  import opened Isa
  import opened GoldenCpu
  import opened Lockstep

  /** clock_cycles */
  const ClockCycles: nat := 40

  /** The instruction bytes loaded into the golden CPU. */
  const Program: seq<Byte> := [
    0x8A,  // 0: li r0, 10
    0x90,  // 1: li r1, 0
    0xA0,  // 2: li r2, 0
    0xB1,  // 3: li r3, 1
    0x17,  // 4: add r1, r1, r3
    0x29,  // 5: add r2, r2, r1
    0xD1,  // 6: bner0 r1, 4
    0xDF,  // 7: bner0 r3, 7
    0, 0, 0, 0, 0, 0, 0, 0]  // 8-15

  /** Reset pin high for two clock periods. */
  function ResetHardware<H>(hw: Hardware<H>, h: H): H
  {
    hw.clockPeriod(hw.clockPeriod(h, true), true)
  }

  /**
    The reset sequence: the hardware is clocked twice with reset high, and
    the golden PC is set to 0; golden registers and memory are left alone.
  */
  method Reset<H>(hw: Hardware<H>, designed: H, golden: Cpu) returns (designedAfter: H)
    requires golden.Valid()
    modifies golden`pc
    ensures golden.Valid()
    ensures designedAfter == ResetHardware(hw, designed)
    ensures golden.State() == old(golden.State()).(pc := 0)
  {
    designedAfter := hw.clockPeriod(designed, true);
    designedAfter := hw.clockPeriod(designedAfter, true);
    golden.SetPc(0);
  }

  /** The golden state the run starts from. */
  const Start: CpuState := CpuState(0, [0, 0, 0, 0], Program)

  /**
    main: build the golden CPU, load the program, reset, run the lockstep
    loop and turn all_match into the exit status. `designed0` is the
    hardware's state when it is created.
  */
  method RunMainTest<H>(hw: Hardware<H>, designed0: H) returns (status: int, golden: Cpu)
    ensures golden.Valid()
    ensures status == 0 || status == 1
    ensures status == 0 <==> RunReports(hw, ResetHardware(hw, designed0), Start, ClockCycles) == []
    ensures golden.State() == Steps(Start, ClockCycles)
  {
    golden := new Cpu();
    golden.LoadInstructions(Program);
    var designed := Reset(hw, designed0, golden);
    var allMatch, reports;
    allMatch, designed, reports := Run(hw, designed, golden, ClockCycles);
    status := if allMatch then 0 else 1;
  }

  // ---------------------------------------------------------------------
  // What the golden model computes on the program

  /** 0 + 1 + ... + k */
  function Triangle(k: nat): nat
  {
    if k == 0 then 0 else Triangle(k - 1) + k
  }

  lemma {:induction false} TriangleClosedForm(k: nat)
    ensures 2 * Triangle(k) == k * (k + 1)
  {
    if k > 0 {
      TriangleClosedForm(k - 1);
      assert (k - 1) * k + 2 * k == k * (k + 1);
    }
  }

  /** r2 never exceeds 1 + ... + 10 = 55 while r1 counts up to 10. */
  lemma TriangleBound(k: nat)
    requires k <= 10
    ensures Triangle(k) <= 55
    ensures k == 10 ==> Triangle(k) == 55
  {
    TriangleClosedForm(k);
    assert k * (k + 1) <= 10 * 11;
  }

  /**
    Instruction r (0, 1 or 2) of pass j through addresses 4-6: the pass
    starts with r1 = j and r2 = 0 + ... + j, address 4 makes r1 = j + 1 and
    address 5 adds it into r2.
  */
  function PassState(j: nat, r: nat): CpuState
    requires j < 10 && r < 3
  {
    TriangleBound(j + 1);
    if r == 0 then CpuState(4, [10, j, Triangle(j), 1], Program)
    else if r == 1 then CpuState(5, [10, j + 1, Triangle(j), 1], Program)
    else CpuState(6, [10, j + 1, Triangle(j + 1), 1], Program)
  }

  /** r1 has reached r0 = 10, r2 holds 55, and the PC is at the self-loop. */
  const Final: CpuState := CpuState(7, [10, 10, 55, 1], Program)

  /** The first four bytes are the loads li r0, 10; li r1, 0; li r2, 0; li r3, 1. */
  lemma PrologueDecodes()
    ensures Decode(Program[0]) == Load(0, 10)
    ensures Decode(Program[1]) == Load(1, 0)
    ensures Decode(Program[2]) == Load(2, 0)
    ensures Decode(Program[3]) == Load(3, 1)
  {
  }

  /** The next four are add r1, r1, r3; add r2, r2, r1; bner0 r1, 4; bner0 r3, 7. */
  lemma LoopDecodes()
    ensures Decode(Program[4]) == Add(1, 1, 3)
    ensures Decode(Program[5]) == Add(2, 2, 1)
    ensures Decode(Program[6]) == Bner0(4, 1)
    ensures Decode(Program[7]) == Bner0(7, 3)
  {
  }

  /** Addresses 0-3 load 10, 0, 0, 1 into r0, r1, r2, r3. */
  lemma StepLoad(s: CpuState)
    requires s.imem == Program && s.pc <= 3
    ensures Step(s) == CpuState(s.pc + 1, s.regs[s.pc := [10, 0, 0, 1][s.pc]], Program)
  {
    PrologueDecodes();
    assert Fetch(s.imem, s.pc) == Program[s.pc];
  }

  /** Addresses 4-7: r1 += r3, r2 += r1, back to 4 while r1 != r0, then spin at 7 while r3 != r0. */
  lemma StepLoop(s: CpuState)
    requires s.imem == Program && 4 <= s.pc <= 7
    ensures s.pc == 4 ==> Step(s) == CpuState(5, s.regs[1 := (s.regs[1] as int + s.regs[3]) % 256], Program)
    ensures s.pc == 5 ==> Step(s) == CpuState(6, s.regs[2 := (s.regs[2] as int + s.regs[1]) % 256], Program)
    ensures s.pc == 6 ==> Step(s) == CpuState(if s.regs[1] != s.regs[0] then 4 else 7, s.regs, Program)
    ensures s.pc == 7 ==> Step(s) == CpuState(if s.regs[3] != s.regs[0] then 7 else 8, s.regs, Program)
  {
    LoopDecodes();
    assert Fetch(s.imem, s.pc) == Program[s.pc];
  }

  /** At 4: r1 := r1 + r3 increments r1. */
  lemma IncrementStep(j: nat)
    requires j < 10
    ensures Step(PassState(j, 0)) == PassState(j, 1)
  {
    StepLoop(PassState(j, 0));
  }

  /** At 5: r2 := r2 + r1 adds the new r1 into the running sum. */
  lemma SumStep(j: nat)
    requires j < 10
    ensures Step(PassState(j, 1)) == PassState(j, 2)
  {
    StepLoop(PassState(j, 1));
  }

  /** At 6: back to 4 for the next pass, unless r1 has just reached r0 = 10; then on to 7. */
  lemma BranchStep(j: nat)
    requires j < 10
    ensures Step(PassState(j, 2)) == if j + 1 < 10 then PassState(j + 1, 0) else Final
  {
    TriangleBound(j + 1);
    StepLoop(PassState(j, 2));
  }

  /**
    The golden state after n steps of the program: four loads, then ten
    passes of three instructions through addresses 4-6, then the self-loop
    at address 7 from step 4 + 3 * 10 = 34 on.
  */
  function Expected(n: nat): CpuState
  {
    if n == 0 then Start
    else if n < 4 then CpuState(n, [10, 0, 0, 0], Program)
    else if n >= 34 then Final
    else PassState((n - 4) / 3, (n - 4) % 3)
  }

  /** Step 4 + 3j + r of the run is instruction r of pass j. */
  lemma ExpectedInPass(j: nat, r: nat)
    requires j < 10 && r < 3
    ensures Expected(4 + 3 * j + r) == PassState(j, r)
  {
    var n := 4 + 3 * j + r;
    assert (n - 4) / 3 == j && (n - 4) % 3 == r;
  }

  /** Instruction r of pass j takes Expected from step 4 + 3j + r to the next. */
  lemma PassExpectedStep(j: nat, r: nat)
    requires j < 10 && r < 3
    ensures Step(Expected(4 + 3 * j + r)) == Expected(5 + 3 * j + r)
  {
    ExpectedInPass(j, r);
    if r == 0 {
      IncrementStep(j);
      ExpectedInPass(j, 1);
    } else if r == 1 {
      SumStep(j);
      ExpectedInPass(j, 2);
    } else {
      BranchStep(j);
      if j + 1 < 10 {
        ExpectedInPass(j + 1, 0);
      }
    }
  }

  lemma ExpectedStep(n: nat)
    ensures Step(Expected(n)) == Expected(n + 1)
  {
    if n < 4 {
      StepLoad(Expected(n));
    } else if n < 34 {
      var j, r := (n - 4) / 3, (n - 4) % 3;
      assert n == 4 + 3 * j + r;
      PassExpectedStep(j, r);
    } else {
      SelfLoop(Final);
    }
  }

  /** The golden CPU follows Expected step by step. */
  lemma {:induction false} ProgramTrajectory(n: nat)
    ensures Steps(Start, n) == Expected(n)
  {
    if n > 0 {
      ProgramTrajectory(n - 1);
      StepsSucc(Start, n - 1);
      ExpectedStep(n - 1);
    }
  }

  /** `bner0 r3, 7` at address 7 branches to itself while r3 differs from r0. */
  lemma SelfLoop(s: CpuState)
    requires s.imem == Program && s.pc == 7 && s.regs[3] != s.regs[0]
    ensures Step(s) == s
  {
    StepLoop(s);
  }

  /**
    Once r1 has reached r0 = 10 (after 4 + 3 * 10 = 34 steps) the golden CPU
    sits at address 7 with r2 = 1 + ... + 10 = 55, and stays there.
  */
  lemma ProgramHalts(n: nat)
    requires n >= 34
    ensures Steps(Start, n) == Final
    ensures Steps(Start, n).regs[2] == Triangle(10)
  {
    ProgramTrajectory(n);
    TriangleBound(10);
  }

  /** After the 40 compared cycles the golden CPU holds r0 = 10, r1 = 10, r2 = 55, r3 = 1 at PC 7. */
  lemma GoldenRun()
    ensures Steps(Start, ClockCycles) == Final
  {
    ProgramHalts(ClockCycles);
  }

  /**
    However long it runs, the golden CPU never fetches past address 7 on
    this program, so its PC never reaches 16, where the 8-bit golden PC and
    a 4-bit hardware PC part ways.
  */
  lemma ProgramStaysInRange(n: nat)
    ensures Steps(Start, n).pc <= 7
  {
    ProgramTrajectory(n);
  }

  /**
    Hardware that mirrors the golden model and comes out of reset in the
    golden start state passes the main test (exit status 0), and ends showing
    the final golden state on its debug outputs.
  */
  lemma MirroringHardwarePasses<H(!new)>(hw: Hardware<H>, abs: H -> CpuState, designed0: H)
    requires Mirrors(hw, abs)
    requires abs(ResetHardware(hw, designed0)) == Start
    ensures RunReports(hw, ResetHardware(hw, designed0), Start, ClockCycles) == []
    ensures Observe(hw, Clocks(hw, ResetHardware(hw, designed0), ClockCycles)) == Architectural(Final)
  {
    var h := ResetHardware(hw, designed0);
    MirroringHardwareMatches(hw, abs, h, Start, ClockCycles);
    MirrorTracks(hw, abs, h, Start, ClockCycles);
    GoldenRun();
    var hn := Clocks(hw, h, ClockCycles);
    assert Observe(hw, hn) == Architectural(abs(hn));
  }
}
