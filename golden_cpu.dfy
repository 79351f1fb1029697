/**
  The golden CPU object of sCPU.h / sCPU.cpp: a PC byte, a four-byte register
  array and an instruction memory that the methods update in place. Every
  method is proved against the pure model of module Isa through State().
*/
module GoldenCpu {
  import opened Isa

  class Cpu {
    var pc: Byte
    var regs: array<Byte>
    var imem: seq<Byte>

    /** regs_ has exactly four entries. */
    ghost predicate Valid()
      reads this
    {
      regs.Length == 4
    }

    /** The architectural state this object holds. */
    ghost function State(): CpuState
      reads this, regs
      requires Valid()
    {
      CpuState(pc, regs[..], imem)
    }

    /** PC 0, all four registers 0, instruction memory empty. */
    constructor ()
      ensures Valid() && fresh(regs)
      ensures State() == CpuState(0, [0, 0, 0, 0], [])
    {
      pc := 0;
      regs := new Byte[4];
      imem := [];
      new;
      var i := 0;
      while i < 4
        invariant 0 <= i <= 4
        invariant forall k :: 0 <= k < i ==> regs[k] == 0
        modifies regs
      {
        regs[i] := 0;
        i := i + 1;
      }
      assert regs[..] == [0, 0, 0, 0];
    }

    method GetPc() returns (r: Byte)
      requires Valid()
      ensures r == State().pc
    {
      r := pc;
    }

    /** Stores the PC as given: no 4-bit mask. */
    method SetPc(v: Byte)
      requires Valid()
      modifies this`pc
      ensures Valid()
      ensures State() == old(State()).(pc := v)
    {
      pc := v;
    }

    /**
      Indices 0-3 read a register and indices 8 and up read 0; the source's
      guard is `< 8`, so 4-7 would index past regs_ and are excluded.
    */
    method GetRegister(k: Byte) returns (r: Byte)
      requires Valid()
      requires k < 4 || k >= 8
      ensures k < 4 ==> r == State().regs[k]
      ensures k >= 8 ==> r == 0
    {
      if k < 8 {
        r := regs[k];
      } else {
        r := 0;
      }
    }

    /** Writes register k when k < 4 and ignores k >= 8. */
    method SetRegister(k: Byte, v: Byte)
      requires Valid()
      requires k < 4 || k >= 8
      modifies regs
      ensures Valid()
      ensures State() == if k < 4 then old(State()).(regs := old(State()).regs[k := v]) else old(State())
    {
      if k < 8 {
        regs[k] := v;
      }
    }

    /** Replaces the whole instruction memory; PC and registers stay. */
    method LoadInstructions(instructions: seq<Byte>)
      requires Valid()
      modifies this`imem
      ensures Valid()
      ensures State() == old(State()).(imem := instructions)
    {
      imem := instructions;
    }

    method FetchInstruction(index: Byte) returns (r: Byte)
      requires Valid()
      ensures index < |State().imem| ==> r == State().imem[index]
      ensures index >= |State().imem| ==> r == 0
      ensures r == Fetch(State().imem, index)
    {
      if index >= |imem| {
        return 0;
      }
      r := imem[index];
    }

    /**
      One fetch-decode-execute step. It returns true exactly when a register
      was written, and then also which register and what value; when it
      returns false the two reported values are the ones passed in, as the
      C++ reference parameters are left untouched.
    */
    method ExecuteInstruction(writtenReg: Byte, writtenValue: Byte)
      returns (regWritten: bool, reg: Byte, value: Byte)
      requires Valid()
      modifies this`pc, regs
      ensures Valid()
      ensures State() == Step(old(State()))
      ensures regWritten <==> Execute(old(State())).written.Some?
      ensures regWritten ==> reg == Execute(old(State())).written.value.reg
      ensures regWritten ==> value == Execute(old(State())).written.value.value
      ensures !regWritten ==> reg == writtenReg && value == writtenValue
    {
      var instruction := FetchInstruction(pc);
      var opcode := instruction / 64;
      regWritten, reg, value := false, writtenReg, writtenValue;

      if opcode == 2 {
        // LOAD: 10 DD MMMM
        var destinationRegister := (instruction / 16) % 4;
        var immediate := instruction % 16;
        regs[destinationRegister] := immediate;
        reg, value, regWritten := destinationRegister, immediate, true;
        pc := (pc + 1) % 256;
      } else if opcode == 0 {
        // ADD: 00 DD S1 S2
        var destReg := (instruction / 16) % 4;
        var src1Reg := (instruction / 4) % 4;
        var src2Reg := instruction % 4;
        var result := (regs[src1Reg] as int + regs[src2Reg]) % 256;
        regs[destReg] := result;
        reg, value, regWritten := destReg, result, true;
        pc := (pc + 1) % 256;
      } else if opcode == 3 {
        // BNER0: 11 AAAA S2
        var targetAddr := (instruction / 4) % 16;
        var src2Reg := instruction % 4;
        if regs[src2Reg] != regs[0] {
          pc := targetAddr;
        } else {
          pc := (pc + 1) % 256;
        }
      } else {
        pc := (pc + 1) % 256;
      }
    }
  }
}
