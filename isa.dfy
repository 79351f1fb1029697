/**
  The instruction set of the 8-bit, 4-register CPU, as the golden model in
  sCPU.cpp executes it: one byte per instruction, the opcode in bits 7-6.

    LOAD   10 DD MMMM   regs[DD] := MMMM (zero-extended), pc := pc + 1
    ADD    00 DD S1 S2  regs[DD] := (regs[S1] + regs[S2]) mod 256, pc := pc + 1
    BNER0  11 AAAA S2   pc := AAAA if regs[S2] != regs[0], else pc + 1
    (01)   -- unused -- pc := pc + 1

  The program counter is a uint8_t that is incremented without a mask, so it
  wraps modulo 256. Bit fields are written with / and %, which for a value in
  0..255 agree with the shifts and masks of the C++ code (lemmas OpcodeMask .. ImmediateMask).
*/
module Isa {

  /** An unsigned 8-bit value (uint8_t). */
  type Byte = b: int | 0 <= b < 256

  /** A 4-bit instruction field (an immediate or a branch target). */
  type Nibble = n: int | 0 <= n < 16

  /** The six operand bits of an instruction. */
  type Payload = p: int | 0 <= p < 64

  /** A 2-bit register field: one of the four architectural registers. */
  type Reg = r: int | 0 <= r < 4

  /** The register bank regs_[4]. */
  type Regs = s: seq<Byte> | |s| == 4 witness [0, 0, 0, 0]

  datatype Option<T> = None | Some(value: T)

  /** One decoded instruction; the variant is chosen by the opcode bits 7-6. */
  datatype Instr =
    | Add(dest: Reg, src1: Reg, src2: Reg)   // 00 DD S1 S2
    | Unused(payload: Payload)               // 01 xxxxxx
    | Load(dest: Reg, imm: Nibble)           // 10 DD MMMM
    | Bner0(target: Nibble, src2: Reg)       // 11 AAAA S2

  /** (instruction >> 6) & 0x3 */
  function Opcode(b: Byte): int { b / 64 }

  /** The fields the golden model extracts, in the order it tests the opcode. */
  function Decode(b: Byte): Instr
  {
    var opcode := Opcode(b);
    if opcode == 2 then Load((b / 16) % 4, b % 16)
    else if opcode == 0 then Add((b / 16) % 4, (b / 4) % 4, b % 4)
    else if opcode == 3 then Bner0((b / 4) % 16, b % 4)
    else Unused(b % 64)
  }

  /** The assembler: the byte that encodes an instruction. */
  function Encode(i: Instr): Byte
  {
    match i
    case Add(d, s1, s2) => d * 16 + s1 * 4 + s2
    case Unused(p) => 64 + p
    case Load(d, m) => 128 + d * 16 + m
    case Bner0(a, s2) => 192 + a * 4 + s2
  }

  lemma DecodeEncode(i: Instr)
    ensures Decode(Encode(i)) == i
  {
    var b := Encode(i);
    ByteFields(b);
    match i
    case Add(d, s1, s2) =>
      assert b / 64 == 0 && (b / 16) % 4 == d && (b / 4) % 4 == s1 && b % 4 == s2;
    case Unused(p) =>
      assert b / 64 == 1 && b % 64 == p;
    case Load(d, m) =>
      assert b / 64 == 2 && (b / 16) % 4 == d && b % 16 == m;
    case Bner0(a, s2) =>
      assert b / 64 == 3 && (b / 4) % 16 == a && b % 4 == s2;
  }

  /** A byte is its four fields: opcode, bits 5-4, bits 3-2 and bits 1-0. */
  lemma ByteFields(b: Byte)
    ensures b == 64 * (b / 64) + 16 * ((b / 16) % 4) + 4 * ((b / 4) % 4) + b % 4
    ensures b % 16 == 4 * ((b / 4) % 4) + b % 4
    ensures (b / 4) % 16 == 4 * ((b / 16) % 4) + (b / 4) % 4
    ensures b % 64 == 16 * ((b / 16) % 4) + 4 * ((b / 4) % 4) + b % 4
  {
    var u, t, q := b / 4, b / 16, b / 64;
    assert 4 * u <= b < 4 * u + 4 && 16 * t <= b < 16 * t + 16 && 64 * q <= b < 64 * q + 64;
    assert 4 * t <= u < 4 * t + 4;
    assert u / 4 == t;
    assert 4 * q <= t < 4 * q + 4;
    assert t / 4 == q;
    assert u == 16 * q + 4 * (t % 4) + u % 4;
  }

  lemma EncodeDecode(b: Byte)
    ensures Encode(Decode(b)) == b
  {
    ByteFields(b);
  }

  // The C++ code extracts fields with shifts and masks; on a byte these agree
  // with the / and % used above.

  /** (instruction >> 6) & 0x3, the opcode. */
  lemma OpcodeMask(x: bv8)
    ensures ((x >> 6) & 3) as int == x as int / 64
  {
    var shifted := x >> 6;
    assert shifted as int == x as int / 64;
    assert (shifted & 3) as int == shifted as int % 4;
  }

  /** (instruction >> 4) & 0x3, the destination register. */
  lemma DestMask(x: bv8)
    ensures ((x >> 4) & 3) as int == (x as int / 16) % 4
  {
    var shifted := x >> 4;
    assert shifted as int == x as int / 16;
    assert (shifted & 3) as int == shifted as int % 4;
  }

  /** (instruction >> 2) & 0x3, the first source register of ADD. */
  lemma Src1Mask(x: bv8)
    ensures ((x >> 2) & 3) as int == (x as int / 4) % 4
  {
    var shifted := x >> 2;
    assert shifted as int == x as int / 4;
    assert (shifted & 3) as int == shifted as int % 4;
  }

  /** instruction & 0x3, the second source register. */
  lemma Src2Mask(x: bv8)
    ensures (x & 3) as int == x as int % 4
  {
  }

  /** (instruction >> 2) & 0xF, the branch target. */
  lemma TargetMask(x: bv8)
    ensures ((x >> 2) & 0xF) as int == (x as int / 4) % 16
  {
    var shifted := x >> 2;
    assert shifted as int == x as int / 4;
    assert (shifted & 0xF) as int == shifted as int % 16;
  }

  /** instruction & 0xF, the LOAD immediate. */
  lemma ImmediateMask(x: bv8)
    ensures (x & 0xF) as int == x as int % 16
  {
  }

  /** A register write reported by executeInstruction. */
  datatype Write = Write(reg: Reg, value: Byte)

  /** The architectural state of sCPU: pc_, regs_[4] and imem_. */
  datatype CpuState = CpuState(pc: Byte, regs: Regs, imem: seq<Byte>)

  /** What one executeInstruction call does: the new state and the write it reports. */
  datatype Effect = Effect(next: CpuState, written: Option<Write>)

  /** fetchInstruction: addresses at or past the end of memory read as 0. */
  function Fetch(imem: seq<Byte>, index: Byte): Byte
  {
    if index >= |imem| then 0 else imem[index]
  }

  /** pc_++ on a uint8_t. */
  function Inc(pc: Byte): Byte { (pc + 1) % 256 }

  function Exec(s: CpuState, i: Instr): Effect
  {
    match i
    case Load(d, m) =>
      Effect(s.(pc := Inc(s.pc), regs := s.regs[d := m]), Some(Write(d, m)))
    case Add(d, s1, s2) =>
      var sum := (s.regs[s1] as int + s.regs[s2]) % 256;
      Effect(s.(pc := Inc(s.pc), regs := s.regs[d := sum]), Some(Write(d, sum)))
    case Bner0(a, s2) =>
      Effect(s.(pc := if s.regs[s2] != s.regs[0] then a else Inc(s.pc)), None)
    case Unused(_) =>
      Effect(s.(pc := Inc(s.pc)), None)
  }

  /** One fetch-decode-execute step of the golden model. */
  function Execute(s: CpuState): Effect
  {
    Exec(s, Decode(Fetch(s.imem, s.pc)))
  }

  function Step(s: CpuState): CpuState
  {
    Execute(s).next
  }

  /** The state after n steps. */
  function Steps(s: CpuState, n: nat): CpuState
    decreases n
  {
    if n == 0 then s else Steps(Step(s), n - 1)
  }

  // ---------------------------------------------------------------------
  // The four opcodes, stated on the raw instruction byte

  lemma ExecuteLoad(s: CpuState)
    requires Opcode(Fetch(s.imem, s.pc)) == 2
    ensures var b := Fetch(s.imem, s.pc);
      var d, m := (b / 16) % 4, b % 16;
      Execute(s) == Effect(CpuState(Inc(s.pc), s.regs[d := m], s.imem), Some(Write(d, m)))
  {
  }

  lemma ExecuteAdd(s: CpuState)
    requires Opcode(Fetch(s.imem, s.pc)) == 0
    ensures var b := Fetch(s.imem, s.pc);
      var d, s1, s2 := (b / 16) % 4, (b / 4) % 4, b % 4;
      var sum := (s.regs[s1] as int + s.regs[s2]) % 256;
      Execute(s) == Effect(CpuState(Inc(s.pc), s.regs[d := sum], s.imem), Some(Write(d, sum)))
  {
  }

  lemma ExecuteBner0(s: CpuState)
    requires Opcode(Fetch(s.imem, s.pc)) == 3
    ensures var b := Fetch(s.imem, s.pc);
      var target, s2 := (b / 4) % 16, b % 4;
      Execute(s) == Effect(CpuState(if s.regs[s2] != s.regs[0] then target else Inc(s.pc), s.regs, s.imem), None)
  {
  }

  lemma ExecuteUnused(s: CpuState)
    requires Opcode(Fetch(s.imem, s.pc)) == 1
    ensures Execute(s) == Effect(s.(pc := Inc(s.pc)), None)
  {
  }

  // ---------------------------------------------------------------------
  // Properties of one step

  /**
    A step never changes the instruction memory, reports a write exactly for
    LOAD and ADD, writes the reported value to the reported register and
    changes no other register.
  */
  lemma ExecuteFrame(s: CpuState)
    ensures Execute(s).next.imem == s.imem
    ensures Execute(s).written.Some? <==> Opcode(Fetch(s.imem, s.pc)) in {0, 2}
    ensures Execute(s).written.None? ==> Execute(s).next.regs == s.regs
    ensures Execute(s).written.Some? ==>
      var w := Execute(s).written.value;
      Execute(s).next.regs == s.regs[w.reg := w.value]
  {
  }

  /**
    Unless a branch is taken, the PC advances modulo 256: 255 wraps to 0, but
    15 goes on to 16 (the 4-bit hardware PC would wrap to 0 there).
  */
  lemma PcAdvances(s: CpuState)
    requires var b := Fetch(s.imem, s.pc); !(Opcode(b) == 3 && s.regs[b % 4] != s.regs[0])
    ensures Step(s).pc == (s.pc + 1) % 256
    ensures s.pc == 255 ==> Step(s).pc == 0
    ensures s.pc == 15 ==> Step(s).pc == 16
  {
  }

  /** A taken branch lands on a 4-bit address. */
  lemma BranchTargetIsNibble(s: CpuState)
    requires var b := Fetch(s.imem, s.pc); Opcode(b) == 3 && s.regs[b % 4] != s.regs[0]
    ensures Step(s).pc == (Fetch(s.imem, s.pc) / 4) % 16 < 16
  {
  }

  /**
    Past the end of memory the fetched 0x00 is ADD r0, r0, r0, which doubles
    r0 modulo 256; it leaves the registers alone exactly when r0 is 0.
  */
  lemma FetchPastEnd(s: CpuState)
    requires s.pc >= |s.imem|
    ensures Execute(s) == Exec(s, Decode(0))
    ensures Step(s) == CpuState(Inc(s.pc), s.regs[0 := (2 * s.regs[0] as int) % 256], s.imem)
    ensures Step(s).regs == s.regs <==> s.regs[0] == 0
  {
    assert Step(s).regs[0] == (2 * s.regs[0] as int) % 256;
  }

  lemma {:induction false} StepsAdd(s: CpuState, a: nat, b: nat)
    ensures Steps(s, a + b) == Steps(Steps(s, a), b)
    decreases a
  {
    if a > 0 {
      StepsAdd(Step(s), a - 1, b);
    }
  }

  /** The (n+1)-th step is taken from the state after n steps. */
  lemma {:induction false} StepsSucc(s: CpuState, n: nat)
    ensures Steps(s, n + 1) == Step(Steps(s, n))
    decreases n
  {
    if n > 0 {
      StepsSucc(Step(s), n - 1);
    }
  }

  // ---------------------------------------------------------------------
  // Cross-checks against the hardware component tests

  /** The field layouts the control-unit decoder is tested with. */
  lemma ControlUnitVectors()
    ensures Decode(0x39) == Add(3, 2, 1)
    ensures Decode(0x9F) == Load(1, 15)
    ensures Decode(0xD6) == Bner0(5, 2)
  {
  }

  /** ADD wraps like the 8-bit ALU: 0xFF + 0x01 gives 0x00. */
  lemma AddOverflow(s: CpuState, d: Reg, s1: Reg, s2: Reg)
    requires s.regs[s1] == 0xFF && s.regs[s2] == 0x01
    ensures Exec(s, Add(d, s1, s2)).next.regs[d] == 0x00
  {
  }

  /** LOAD zero-extends its 4-bit immediate into the 8-bit register. */
  lemma LoadZeroExtends(s: CpuState, d: Reg, m: Nibble)
    ensures Exec(s, Load(d, m)).next.regs[d] == m
    ensures Exec(s, Load(d, m)).next.regs[d] < 16
  {
  }
}
