/**
  The lockstep comparison of main_test.cpp: the Verilated hardware CPU and
  the golden CPU are advanced one cycle at a time and their PC and four
  registers are compared after every cycle.

  The hardware is seen only through what main_test.cpp uses of it: one full
  clock period with the reset pin held at a given level, and the debug
  outputs pc_debug and reg0_debug .. reg3_debug. Its state type H and these
  functions are parameters, so every statement below holds for any hardware.
*/
module Lockstep {
  import opened Isa
  import opened GoldenCpu

  /** The hardware CPU as the harness drives and observes it. */
  datatype Hardware<!H> = Hardware(
    clockPeriod: (H, bool) -> H,  // clk 0, eval, clk 1, eval, with the reset pin at the given level
    pcDebug: H -> Byte,
    regDebug: (H, Reg) -> Byte)

  /** One clock period with reset low: the hardware executes one instruction. */
  function Clock<H>(hw: Hardware<H>, h: H): H
  {
    hw.clockPeriod(h, false)
  }

  /** The hardware state after n clock periods with reset low. */
  function Clocks<H>(hw: Hardware<H>, h: H, n: nat): H
    decreases n
  {
    if n == 0 then h else Clocks(hw, Clock(hw, h), n - 1)
  }

  lemma {:induction false} ClocksSucc<H>(hw: Hardware<H>, h: H, n: nat)
    ensures Clocks(hw, h, n + 1) == Clock(hw, Clocks(hw, h, n))
    decreases n
  {
    if n > 0 {
      ClocksSucc(hw, Clock(hw, h), n - 1);
    }
  }

  /** The five compared values: a PC and four registers. */
  datatype Observation = Observation(pc: Byte, regs: Regs)

  function Observe<H>(hw: Hardware<H>, h: H): Observation
  {
    Observation(hw.pcDebug(h), [hw.regDebug(h, 0), hw.regDebug(h, 1), hw.regDebug(h, 2), hw.regDebug(h, 3)])
  }

  /** The same five values of the golden CPU (getPc and getRegister(0..3)). */
  function Architectural(s: CpuState): Observation
  {
    Observation(s.pc, s.regs)
  }

  datatype Field = PcField | RegField(index: Reg)

  /** One line of the harness's report, as data. */
  datatype Report =
    | Desync(cycle: nat, hwPc: Byte, goldenPc: Byte)                 // PC differs before the clock edge
    | Mismatch(cycle: nat, field: Field, hwValue: Byte, goldenValue: Byte)  // a field differs after it

  function PcMismatches(o: Observation, g: Observation, cycle: nat): seq<Report>
  {
    if o.pc != g.pc then [Mismatch(cycle, PcField, o.pc, g.pc)] else []
  }

  /** The register mismatches among registers 0 .. n-1, in register order. */
  function RegMismatches(o: Observation, g: Observation, cycle: nat, n: nat): seq<Report>
    requires n <= 4
  {
    if n == 0 then []
    else
      RegMismatches(o, g, cycle, n - 1) +
      (if o.regs[n - 1] != g.regs[n - 1] then [Mismatch(cycle, RegField(n - 1), o.regs[n - 1], g.regs[n - 1])] else [])
  }

  /** Everything compare_cpus reports for one cycle: the PC first, then R0 .. R3. */
  function Mismatches(o: Observation, g: Observation, cycle: nat): seq<Report>
  {
    PcMismatches(o, g, cycle) + RegMismatches(o, g, cycle, 4)
  }

  lemma {:induction false} RegMismatchesExact(o: Observation, g: Observation, cycle: nat, n: nat)
    requires n <= 4
    ensures RegMismatches(o, g, cycle, n) == [] <==> forall k :: 0 <= k < n ==> o.regs[k] == g.regs[k]
    ensures forall k: Reg :: k < n ==>
      (Mismatch(cycle, RegField(k), o.regs[k], g.regs[k]) in RegMismatches(o, g, cycle, n) <==> o.regs[k] != g.regs[k])
    ensures forall r <- RegMismatches(o, g, cycle, n) ::
      r.Mismatch? && r.cycle == cycle && r.field.RegField? && r.field.index < n &&
      r.hwValue == o.regs[r.field.index] && r.goldenValue == g.regs[r.field.index] && r.hwValue != r.goldenValue
  {
    if n > 0 {
      RegMismatchesExact(o, g, cycle, n - 1);
    }
  }

  /** Register reports only, in strictly increasing register order. */
  predicate RegsAscending(rs: seq<Report>)
  {
    (forall r <- rs :: r.Mismatch? && r.field.RegField?) &&
    forall i, j :: 0 <= i < j < |rs| ==> rs[i].field.index < rs[j].field.index
  }

  /** Reports of which no two name the same field. */
  predicate NoFieldTwice(ms: seq<Report>)
  {
    (forall r <- ms :: r.Mismatch?) &&
    forall i, j :: 0 <= i < j < |ms| ==> ms[i].field != ms[j].field
  }

  /** Register reports come in increasing register order, at most one per register. */
  lemma {:induction false} RegMismatchesOrdered(o: Observation, g: Observation, cycle: nat, n: nat)
    requires n <= 4
    ensures var rs := RegMismatches(o, g, cycle, n);
      |rs| <= n && RegsAscending(rs) && forall r <- rs :: r.field.index < n
  {
    if n > 0 {
      RegMismatchesOrdered(o, g, cycle, n - 1);
      var prev := RegMismatches(o, g, cycle, n - 1);
      if o.regs[n - 1] != g.regs[n - 1] {
        AppendAscending(prev, Mismatch(cycle, RegField(n - 1), o.regs[n - 1], g.regs[n - 1]));
      }
    }
  }

  lemma AppendAscending(rs: seq<Report>, x: Report)
    requires RegsAscending(rs)
    requires x.Mismatch? && x.field.RegField?
    requires forall r <- rs :: r.field.index < x.field.index
    ensures RegsAscending(rs + [x])
  {
    var ys := rs + [x];
    forall i, j | 0 <= i < j < |ys|
      ensures ys[i].field.index < ys[j].field.index
    {
      assert ys[i] == rs[i] && rs[i] in rs;
      if j < |rs| {
        assert ys[j] == rs[j];
      }
    }
  }

  lemma AscendingNoFieldTwice(rs: seq<Report>)
    requires RegsAscending(rs)
    ensures NoFieldTwice(rs)
  {
    forall i, j | 0 <= i < j < |rs|
      ensures rs[i].field != rs[j].field
    {
      assert rs[i].field.index < rs[j].field.index;
    }
  }

  lemma PcFirstNoFieldTwice(x: Report, rs: seq<Report>)
    requires x.Mismatch? && x.field.PcField?
    requires RegsAscending(rs)
    ensures NoFieldTwice([x] + rs)
  {
    AscendingNoFieldTwice(rs);
    var ys := [x] + rs;
    forall i, j | 0 <= i < j < |ys|
      ensures ys[i].field != ys[j].field
    {
      assert ys[j] == rs[j - 1] && rs[j - 1] in rs;
      if i > 0 {
        assert ys[i] == rs[i - 1];
      }
    }
  }

  /**
    compare_cpus does not stop at the first difference: it reports every
    differing field of the cycle once, with both values, and nothing else
    (so there are as many reports as differing fields, at most five); it
    reports nothing exactly when all five values agree.
  */
  lemma MismatchesExact(o: Observation, g: Observation, cycle: nat)
    ensures Mismatches(o, g, cycle) == [] <==> o == g
    ensures Mismatch(cycle, PcField, o.pc, g.pc) in Mismatches(o, g, cycle) <==> o.pc != g.pc
    ensures forall k: Reg ::
      Mismatch(cycle, RegField(k), o.regs[k], g.regs[k]) in Mismatches(o, g, cycle) <==> o.regs[k] != g.regs[k]
    ensures forall r <- Mismatches(o, g, cycle) :: r.Mismatch? && r.cycle == cycle && r.hwValue != r.goldenValue
    ensures forall r <- Mismatches(o, g, cycle) ::
      (r.field.PcField? ==> r.hwValue == o.pc && r.goldenValue == g.pc) &&
      (r.field.RegField? ==> r.hwValue == o.regs[r.field.index] && r.goldenValue == g.regs[r.field.index])
    ensures |Mismatches(o, g, cycle)| <= 5 && NoFieldTwice(Mismatches(o, g, cycle))
  {
    RegMismatchesExact(o, g, cycle, 4);
    if (forall k :: 0 <= k < 4 ==> o.regs[k] == g.regs[k]) {
      assert o.regs == g.regs;
    }
    MismatchesDistinct(o, g, cycle);
  }

  /** The PC report, if any, comes first, then the register reports in increasing order. */
  lemma MismatchesDistinct(o: Observation, g: Observation, cycle: nat)
    ensures |Mismatches(o, g, cycle)| <= 5 && NoFieldTwice(Mismatches(o, g, cycle))
  {
    var rs := RegMismatches(o, g, cycle, 4);
    RegMismatchesOrdered(o, g, cycle, 4);
    if o.pc != g.pc {
      PcFirstNoFieldTwice(Mismatch(cycle, PcField, o.pc, g.pc), rs);
    } else {
      AscendingNoFieldTwice(rs);
    }
  }

  /**
    compare_cpus: checks the PC, then registers 0 to 3, clearing the match
    flag on every difference and reporting each one.
  */
  method CompareCpus<H>(hw: Hardware<H>, designed: H, golden: Cpu, cycle: nat)
    returns (matched: bool, reports: seq<Report>)
    requires golden.Valid()
    ensures reports == Mismatches(Observe(hw, designed), Architectural(golden.State()), cycle)
    ensures matched <==> Observe(hw, designed) == Architectural(golden.State())
  {
    ghost var o, g := Observe(hw, designed), Architectural(golden.State());
    matched := true;
    reports := [];

    var designedPc := hw.pcDebug(designed);
    var goldenPc := golden.GetPc();
    if designedPc != goldenPc {
      reports := reports + [Mismatch(cycle, PcField, designedPc, goldenPc)];
      matched := false;
    }

    var i := 0;
    while i < 4
      invariant 0 <= i <= 4
      invariant reports == PcMismatches(o, g, cycle) + RegMismatches(o, g, cycle, i)
      invariant matched <==> o.pc == g.pc && forall k :: 0 <= k < i ==> o.regs[k] == g.regs[k]
    {
      var designedReg := hw.regDebug(designed, i);
      var goldenReg := golden.GetRegister(i);
      if designedReg != goldenReg {
        reports := reports + [Mismatch(cycle, RegField(i), designedReg, goldenReg)];
        matched := false;
      }
      i := i + 1;
    }
    MismatchesExact(o, g, cycle);
  }

  /** The pre-cycle PC check. */
  function PreCycleCheck(hwPc: Byte, goldenPc: Byte, cycle: nat): seq<Report>
  {
    if hwPc != goldenPc then [Desync(cycle, hwPc, goldenPc)] else []
  }

  /** What one iteration of the run loop reports: check PCs, clock the hardware, step the golden CPU, compare. */
  function CycleReports<H>(hw: Hardware<H>, h: H, s: CpuState, cycle: nat): seq<Report>
  {
    PreCycleCheck(hw.pcDebug(h), s.pc, cycle) + Mismatches(Observe(hw, Clock(hw, h)), Architectural(Step(s)), cycle)
  }

  /** The blocks f(0), f(1), ..., f(n-1), one after the other. */
  function Concat(f: nat -> seq<Report>, n: nat): seq<Report>
  {
    if n == 0 then [] else Concat(f, n - 1) + f(n - 1)
  }

  lemma {:induction false} ConcatEmpty(f: nat -> seq<Report>, n: nat)
    ensures Concat(f, n) == [] <==> forall i :: 0 <= i < n ==> f(i) == []
  {
    if n > 0 {
      ConcatEmpty(f, n - 1);
      assert |Concat(f, n)| == |Concat(f, n - 1)| + |f(n - 1)|;
    }
  }

  /** What the first n iterations of the run loop report, in order. */
  function RunReports<H>(hw: Hardware<H>, h: H, s: CpuState, n: nat): seq<Report>
  {
    Concat((i: nat) => CycleReports(hw, Clocks(hw, h, i), Steps(s, i), i), n)
  }

  lemma RunReportsNext<H>(hw: Hardware<H>, h: H, s: CpuState, n: nat)
    ensures RunReports(hw, h, s, n + 1) == RunReports(hw, h, s, n) + CycleReports(hw, Clocks(hw, h, n), Steps(s, n), n)
  {
  }

  /**
    One iteration of the run loop of main_test.cpp: check that the PCs agree
    before the clock edge, clock the hardware once, execute one golden
    instruction, then compare all five values. It reports exactly the
    cycle's reports, and `clean` is false exactly when it reported something.
  */
  method LockstepCycle<H>(hw: Hardware<H>, designed: H, golden: Cpu, cycle: nat)
    returns (clean: bool, next: H, found: seq<Report>)
    requires golden.Valid()
    modifies golden`pc, golden.regs
    ensures golden.Valid()
    ensures next == Clock(hw, designed)
    ensures golden.State() == Step(old(golden.State()))
    ensures found == CycleReports(hw, designed, old(golden.State()), cycle)
    ensures clean <==> found == []
  {
    ghost var s := golden.State();
    clean, found := true, [];
    var designedPc := hw.pcDebug(designed);
    var goldenPc := golden.GetPc();
    if designedPc != goldenPc {
      found := [Desync(cycle, designedPc, goldenPc)];
      clean := false;
    }

    next := hw.clockPeriod(designed, false);

    var writtenReg: Byte, writtenValue: Byte :| true;
    var regWritten;
    regWritten, writtenReg, writtenValue := golden.ExecuteInstruction(writtenReg, writtenValue);

    var matched, mismatches := CompareCpus(hw, next, golden, cycle);
    MismatchesExact(Observe(hw, next), Architectural(golden.State()), cycle);
    AppendEmpty(found, mismatches);
    found := found + mismatches;
    if !matched {
      clean := false;
    }
  }

  lemma AppendEmpty<T>(a: seq<T>, b: seq<T>)
    ensures a + b == [] <==> a == [] && b == []
  {
    assert |a + b| == |a| + |b|;
  }

  /**
    The run loop of main_test.cpp: exactly `cycles` iterations, none skipped
    on a mismatch; all_match ends true exactly when nothing was reported.
  */
  method Run<H>(hw: Hardware<H>, designed0: H, golden: Cpu, cycles: nat)
    returns (allMatch: bool, designed: H, reports: seq<Report>)
    requires golden.Valid()
    modifies golden`pc, golden.regs
    ensures golden.Valid()
    ensures designed == Clocks(hw, designed0, cycles)
    ensures golden.State() == Steps(old(golden.State()), cycles)
    ensures reports == RunReports(hw, designed0, old(golden.State()), cycles)
    ensures allMatch <==> reports == []
  {
    ghost var s0 := golden.State();
    allMatch, designed, reports := true, designed0, [];
    var cycle := 0;
    while cycle < cycles
      invariant 0 <= cycle <= cycles
      invariant golden.Valid()
      invariant designed == Clocks(hw, designed0, cycle)
      invariant golden.State() == Steps(s0, cycle)
      invariant reports == RunReports(hw, designed0, s0, cycle)
      invariant allMatch <==> reports == []
    {
      var clean, found;
      StepsSucc(s0, cycle);
      ClocksSucc(hw, designed0, cycle);
      clean, designed, found := LockstepCycle(hw, designed, golden, cycle);
      RunReportsNext(hw, designed0, s0, cycle);
      AppendEmpty(reports, found);
      reports := reports + found;
      allMatch := allMatch && clean;
      cycle := cycle + 1;
    }
  }

  // ---------------------------------------------------------------------
  // Properties of a run

  /**
    Cycle i of a run from hardware state h and golden state s is clean: the
    PCs agree before the clock edge and all five values agree after it.
  */
  predicate CycleClean<H>(hw: Hardware<H>, h: H, s: CpuState, i: nat)
  {
    var hi, si := Clocks(hw, h, i), Steps(s, i);
    hw.pcDebug(hi) == si.pc && Observe(hw, Clock(hw, hi)) == Architectural(Step(si))
  }

  /** One cycle reports nothing exactly when it is clean. */
  lemma CycleReportsIff<H>(hw: Hardware<H>, h: H, s: CpuState, i: nat)
    ensures CycleReports(hw, Clocks(hw, h, i), Steps(s, i), i) == [] <==> CycleClean(hw, h, s, i)
  {
    var hi, si := Clocks(hw, h, i), Steps(s, i);
    MismatchesExact(Observe(hw, Clock(hw, hi)), Architectural(Step(si)), i);
  }

  /**
    The verdict: a run reports nothing exactly when every one of its cycles
    is clean. With zero cycles there is nothing to report.
  */
  lemma RunMatchesIff<H>(hw: Hardware<H>, h: H, s: CpuState, n: nat)
    ensures RunReports(hw, h, s, n) == [] <==> forall i :: 0 <= i < n ==> CycleClean(hw, h, s, i)
  {
    var f := (i: nat) => CycleReports(hw, Clocks(hw, h, i), Steps(s, i), i);
    ConcatEmpty(f, n);
    forall i | 0 <= i < n
      ensures f(i) == [] <==> CycleClean(hw, h, s, i)
    {
      CycleReportsIff(hw, h, s, i);
    }
  }

  /**
    The hardware mirrors the golden model under an abstraction `abs` of its
    state: its debug outputs show the abstract state, and a clock period
    with reset low performs the golden Step on it.
  */
  ghost predicate Mirrors<H(!new)>(hw: Hardware<H>, abs: H -> CpuState)
  {
    forall h :: Observe(hw, h) == Architectural(abs(h)) && abs(Clock(hw, h)) == Step(abs(h))
  }

  /** Under a mirroring hardware the abstraction of the hardware state follows the golden trajectory. */
  lemma {:induction false} MirrorTracks<H(!new)>(hw: Hardware<H>, abs: H -> CpuState, h: H, s: CpuState, n: nat)
    requires Mirrors(hw, abs)
    requires abs(h) == s
    ensures abs(Clocks(hw, h, n)) == Steps(s, n)
    decreases n
  {
    if n > 0 {
      assert abs(Clock(hw, h)) == Step(abs(h));
      MirrorTracks(hw, abs, Clock(hw, h), Step(s), n - 1);
    }
  }

  /** Hardware that mirrors the golden model, started in the same state, matches for any number of cycles. */
  lemma MirroringHardwareMatches<H(!new)>(hw: Hardware<H>, abs: H -> CpuState, h: H, s: CpuState, n: nat)
    requires Mirrors(hw, abs)
    requires abs(h) == s
    ensures RunReports(hw, h, s, n) == []
  {
    forall i | 0 <= i < n
      ensures CycleClean(hw, h, s, i)
    {
      MirrorTracks(hw, abs, h, s, i);
      var hi := Clocks(hw, h, i);
      assert Observe(hw, hi) == Architectural(abs(hi));
      assert Observe(hw, Clock(hw, hi)) == Architectural(abs(Clock(hw, hi)));
    }
    RunMatchesIff(hw, h, s, n);
  }

  /**
    The known divergence point: a hardware PC that is 4 bits wide wraps from
    15 to 0, while the golden uint8_t PC goes on to 16. So a cycle that starts
    with both at PC 15 and does not take a branch reports a PC mismatch.
  */
  lemma FourBitPcDiverges<H>(hw: Hardware<H>, h: H, s: CpuState, cycle: nat)
    requires hw.pcDebug(h) == s.pc == 15
    requires hw.pcDebug(Clock(hw, h)) == (hw.pcDebug(h) + 1) % 16
    requires var b := Fetch(s.imem, s.pc); !(Opcode(b) == 3 && s.regs[b % 4] != s.regs[0])
    ensures Mismatch(cycle, PcField, 0, 16) in CycleReports(hw, h, s, cycle)
  {
    PcAdvances(s);
    MismatchesExact(Observe(hw, Clock(hw, h)), Architectural(Step(s)), cycle);
  }
}
