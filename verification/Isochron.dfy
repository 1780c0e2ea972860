/** The Isochron virtual machine: opcodes, programs and the reference semantics of a run. */
module Isochron {
  import opened Hardware

  const SCRATCH_BYTES: nat := 65_536
  const SCRATCH_MASK: bv32 := 0xFFF8
  const LINE_MASK: bv32 := 0xFFF0
  const PROG_INSTR: nat := 512
  const LOOPS: nat := 1024
  const MULT: bv64 := 0x9E37_79B9_7F4A_7C15
  const C1: bv32 := 0x6A09_E667
  const C2: bv32 := 0xBB67_AE85

  datatype Op =
    | Add | Sub | Xor | Or | And | Andn
    | Rolx | Rola | Rorx | Rora | Vrol | Vror
    | Load | Store | Rmw | Loadb | Storeb | Rmwb
    | Mullo | Mulhi | Aesr

  type Reg = n: nat | n < 8

  datatype Instr = Instr(op: Op, d: Reg, s: Reg, imm: bv32)

  /** Eight registers and a scratchpad of 8192 words. */
  datatype Vm = Vm(r: seq<Word>, sc: seq<Word>) {
    predicate Valid() { |r| == 8 && |sc| == 8192 }
  }

  // ----- operands -----

  /** The rotation count of the immediate rotates: odd, so never zero. */
  function Turn(imm: bv32): bv8 { ((imm & 63) | 1) as bv8 }

  function Mix(hw: Hw, v: Word, k: bv32): Word { hw.shr(hw.mul(hw.xor(v, hw.zx(k)), hw.imm64(MULT)), 40) }

  /** Byte offset of the word, and of the 16-byte line, an operand selects. */
  function AddrOf(hw: Hw, v: Word, k: bv32): nat { hw.value(hw.and(Mix(hw, v, k), hw.zx(SCRATCH_MASK))) }

  function LineOf(hw: Hw, v: Word, k: bv32): nat { hw.value(hw.and(Mix(hw, v, k), hw.zx(LINE_MASK))) }

  /** The key an opcode and its immediate select for its first address. */
  function AddrKey(op: Op, imm: bv32): bv32 {
    if op in {Loadb, Storeb, Rmwb} then imm ^ C2 else imm ^ C1
  }

  // ----- scratchpad -----

  /** Out of bounds the source panics; lawful arithmetic never gets there. */
  function ReadAt(vm: Vm, o: nat): Word
    requires vm.Valid()
  {
    if o < SCRATCH_BYTES then vm.sc[o / 8] else Word(0)
  }

  function WriteAt(vm: Vm, o: nat, v: Word): (vm': Vm)
    requires vm.Valid()
    ensures vm'.Valid()
  {
    if o < SCRATCH_BYTES then vm.(sc := vm.sc[o / 8 := v]) else vm
  }

  function SetReg(vm: Vm, d: Reg, v: Word): (vm': Vm)
    requires vm.Valid()
    ensures vm'.Valid()
  {
    vm.(r := vm.r[d := v])
  }

  // ----- one slot -----

  /** The opcodes that rotate the destination before they combine it. */
  predicate RotatesFirst(op: Op) { op in {Or, And, Andn, Rolx, Rola, Rorx, Rora} }

  function Rotated(hw: Hw, op: Op, x: Word, imm: bv32): Word {
    match op
    case Or => hw.rol(x, hw.Zx8(17))
    case And => hw.rol(x, hw.Zx8(23))
    case Andn => hw.rol(x, hw.Zx8(29))
    case Rolx => hw.rol(x, hw.Zx8(Turn(imm)))
    case Rola => hw.rol(x, hw.Zx8(Turn(imm)))
    case Rorx => hw.ror(x, hw.Zx8(Turn(imm)))
    case Rora => hw.ror(x, hw.Zx8(Turn(imm)))
    case _ => x
  }

  /** What a register-only opcode leaves in the destination, from the two operand values. */
  function AluResult(hw: Hw, op: Op, x: Word, y: Word, imm: bv32): Word {
    var w, t := hw.zx(imm), Rotated(hw, op, x, imm);
    match op
    case Add => hw.xor(hw.add(x, y), w)
    case Sub => hw.xor(hw.sub(x, y), w)
    case Xor => hw.add(hw.xor(x, y), w)
    case Or => hw.xor(t, hw.or(y, w))
    case And => hw.xor(t, hw.and(y, w))
    case Andn => hw.xor(t, hw.and(hw.not(y), w))
    case Rolx => hw.xor(t, y)
    case Rola => hw.add(t, y)
    case Rorx => hw.xor(t, y)
    case Rora => hw.add(t, y)
    case Vrol => hw.xor(hw.rol(x, y), w)
    case Vror => hw.add(hw.ror(x, y), w)
    case Mullo => hw.mul(x, hw.or(y, hw.Zx8(1)))
    case Mulhi => hw.xor(hw.mulHi(x, hw.or(y, hw.Zx8(1))), w)
    case _ => x
  }

  function LoadStep(hw: Hw, vm: Vm, d: Reg, o: nat): (vm': Vm)
    requires vm.Valid()
    ensures vm'.Valid()
  {
    SetReg(vm, d, hw.xor(vm.r[d], ReadAt(vm, o)))
  }

  function StoreStep(hw: Hw, vm: Vm, s: Reg, o: nat): (vm': Vm)
    requires vm.Valid()
    ensures vm'.Valid()
  {
    WriteAt(vm, o, hw.add(ReadAt(vm, o), vm.r[s]))
  }

  /** Writes a mixed word back, then reads again at the address that word selects:
      the second read sees the write when the two offsets coincide. */
  function RmwStep(hw: Hw, vm: Vm, d: Reg, o: nat): (vm': Vm)
    requires vm.Valid()
    ensures vm'.Valid()
  {
    var v := hw.add(ReadAt(vm, o), vm.r[d]);
    var vm1 := WriteAt(vm, o, v);
    SetReg(vm1, d, hw.xor(vm.r[d], ReadAt(vm1, AddrOf(hw, v, C2))))
  }

  function RmwbStep(hw: Hw, vm: Vm, d: Reg, o: nat): (vm': Vm)
    requires vm.Valid()
    ensures vm'.Valid()
  {
    var v := hw.xor(ReadAt(vm, o), vm.r[d]);
    var vm1 := WriteAt(vm, o, v);
    SetReg(vm1, d, hw.add(vm.r[d], ReadAt(vm1, AddrOf(hw, v, C1))))
  }

  /** One AES round in the order of section 5.1 of FIPS 197. */
  function AesEnc(hw: Hw, b: Block, key: Block): Block {
    hw.xorBlock(hw.mixColumns(hw.shiftRows(hw.subBytes(b))), key)
  }

  /** `w | 1` on an index. */
  function Or1(w: nat): nat { if w % 2 == 0 then w + 1 else w }

  function AesStep(hw: Hw, key: Block, vm: Vm, d: Reg, o: nat): (vm': Vm)
    requires vm.Valid()
    ensures vm'.Valid()
  {
    if o >= SCRATCH_BYTES then vm
    else
      var w := o / 8;
      var b := AesEnc(hw, Block(vm.sc[w], vm.sc[Or1(w)]), key);
      SetReg(vm.(sc := vm.sc[w := b.lo][Or1(w) := b.hi]), d, hw.xor(vm.r[d], b.lo))
  }

  /** One slot, given the value read for its source operand. */
  function StepWith(hw: Hw, key: Block, slot: Instr, vm: Vm, y: Word): (vm': Vm)
    requires vm.Valid()
    ensures vm'.Valid()
  {
    var x, k := vm.r[slot.d], AddrKey(slot.op, slot.imm);
    match slot.op
    case Load => LoadStep(hw, vm, slot.d, AddrOf(hw, y, k))
    case Loadb => LoadStep(hw, vm, slot.d, AddrOf(hw, y, k))
    case Store => StoreStep(hw, vm, slot.s, AddrOf(hw, x, k))
    case Storeb => StoreStep(hw, vm, slot.s, AddrOf(hw, x, k))
    case Rmw => RmwStep(hw, vm, slot.d, AddrOf(hw, y, k))
    case Rmwb => RmwbStep(hw, vm, slot.d, AddrOf(hw, y, k))
    case Aesr => AesStep(hw, key, vm, slot.d, LineOf(hw, y, k))
    case _ => SetReg(vm, slot.d, AluResult(hw, slot.op, x, y, slot.imm))
  }

  /** The interpreter's slot: both operands are read before the destination changes. */
  function Step(hw: Hw, key: Block, slot: Instr, vm: Vm): (vm': Vm)
    requires vm.Valid()
    ensures vm'.Valid()
  {
    StepWith(hw, key, slot, vm, vm.r[slot.s])
  }

  /** The source operand as compiled code reads it: after the rotation, so a slot
      whose source is its own destination sees the rotated value. */
  function CompiledOperand(hw: Hw, slot: Instr, r: seq<Word>): Word
    requires |r| == 8
  {
    if slot.d == slot.s && RotatesFirst(slot.op) then Rotated(hw, slot.op, r[slot.d], slot.imm) else r[slot.s]
  }

  /** The slot both compilers implement. */
  function CompiledStep(hw: Hw, key: Block, slot: Instr, vm: Vm): (vm': Vm)
    requires vm.Valid()
    ensures vm'.Valid()
  {
    StepWith(hw, key, slot, vm, CompiledOperand(hw, slot, vm.r))
  }

  // ----- whole runs, for either slot semantics -----

  datatype Mode = Interpreted | Compiled

  function SlotStep(mode: Mode, hw: Hw, key: Block, slot: Instr, vm: Vm): (vm': Vm)
    requires vm.Valid()
    ensures vm'.Valid()
  {
    if mode.Interpreted? then Step(hw, key, slot, vm) else CompiledStep(hw, key, slot, vm)
  }

  function RunSlots(mode: Mode, hw: Hw, key: Block, prog: seq<Instr>, vm: Vm): (vm': Vm)
    requires vm.Valid()
    ensures vm'.Valid()
  {
    if prog == [] then vm
    else SlotStep(mode, hw, key, prog[|prog| - 1], RunSlots(mode, hw, key, prog[..|prog| - 1], vm))
  }

  /** The first n iterations; each ends by mixing its counter into register 0. */
  function RunLoops(mode: Mode, hw: Hw, key: Block, prog: seq<Instr>, vm: Vm, n: nat): (vm': Vm)
    requires vm.Valid()
    ensures vm'.Valid()
  {
    if n == 0 then vm
    else
      var vm1 := RunSlots(mode, hw, key, prog, RunLoops(mode, hw, key, prog, vm, n - 1));
      SetReg(vm1, 0, hw.xor(vm1.r[0], hw.Count(n - 1)))
  }

  /** `2 i + 1` and `i` for each register. */
  const ODD: seq<bv32> := [1, 3, 5, 7, 9, 11, 13, 15]
  const INDEX: seq<bv32> := [0, 1, 2, 3, 4, 5, 6, 7]

  function InitialReg(hw: Hw, seed: Word, i: Reg): Word {
    hw.add(hw.mul(seed, hw.zx(ODD[i])), hw.zx(INDEX[i]))
  }

  function InitialRegs(hw: Hw, seed: Word): (r: seq<Word>)
    ensures |r| == 8
  {
    seq(8, i requires 0 <= i < 8 => InitialReg(hw, seed, i))
  }

  /** The first n registers folded together, from zero. */
  function Fold(hw: Hw, r: seq<Word>, n: nat): Word
    requires n <= |r|
  {
    if n == 0 then hw.Zero() else hw.xor(Fold(hw, r, n - 1), r[n - 1])
  }

  /** The machine after a whole run, and the digest it yields. */
  function FinalVm(mode: Mode, hw: Hw, key: Block, prog: seq<Instr>, sc: seq<Word>, seed: Word): (vm': Vm)
    requires |sc| == 8192
    ensures vm'.Valid()
  {
    RunLoops(mode, hw, key, prog, Vm(InitialRegs(hw, seed), sc), LOOPS)
  }

  function Digest(mode: Mode, hw: Hw, key: Block, prog: seq<Instr>, sc: seq<Word>, seed: Word): Word
    requires |sc| == 8192
  {
    Fold(hw, FinalVm(mode, hw, key, prog, sc, seed).r, 8)
  }
}
