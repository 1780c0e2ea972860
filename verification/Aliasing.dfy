/** When compiled code agrees with the interpreter. Both compilers rotate the destination
    before they read the source, the interpreter reads first; the two differ exactly when
    a slot names one register twice and the rotation reaches the combined operand. */
module Aliasing {
  import opened Words
  import opened Hardware
  import opened RealHardware
  import opened Isochron

  /** The slots on which compiled code departs from the interpreter. */
  predicate Diverges(slot: Instr) {
    && slot.d == slot.s
    && (slot.op in {Or, Rolx, Rola, Rorx, Rora} || (slot.op in {And, Andn} && slot.imm != 0))
  }

  // ----- the agreeing side -----

  lemma ZeroMask(x: Word)
    ensures AndW(x, ZxW(0)) == ZxW(0)
  {
  }

  /** A slot that does not diverge has one meaning, on every machine state. */
  lemma SlotAgrees(sbox: bv8 -> bv8, mix: Block -> Block, key: Block, slot: Instr, vm: Vm)
    requires vm.Valid() && !Diverges(slot)
    ensures var hw := Real(sbox, mix); CompiledStep(hw, key, slot, vm) == Step(hw, key, slot, vm)
  {
    hide AndW, ZxW, OrW, NotW, RolW, RorW, XorW;
    var hw := Real(sbox, mix);
    if slot.d == slot.s && RotatesFirst(slot.op) {
      var x, t := vm.r[slot.d], Rotated(hw, slot.op, vm.r[slot.d], slot.imm);
      ZeroMask(x);
      ZeroMask(t);
      ZeroMask(hw.not(x));
      ZeroMask(hw.not(t));
    }
  }

  /** So a program without diverging slots runs the same compiled and interpreted. */
  lemma {:induction false} SlotsAgree(sbox: bv8 -> bv8, mix: Block -> Block, key: Block, prog: seq<Instr>, vm: Vm)
    requires vm.Valid() && forall i :: 0 <= i < |prog| ==> !Diverges(prog[i])
    ensures var hw := Real(sbox, mix);
            RunSlots(Compiled, hw, key, prog, vm) == RunSlots(Interpreted, hw, key, prog, vm)
  {
    if prog != [] {
      var n := |prog| - 1;
      SlotsAgree(sbox, mix, key, prog[..n], vm);
      SlotAgrees(sbox, mix, key, prog[n], RunSlots(Interpreted, Real(sbox, mix), key, prog[..n], vm));
    }
  }

  lemma {:induction false} LoopsAgree(sbox: bv8 -> bv8, mix: Block -> Block, key: Block, prog: seq<Instr>, vm: Vm,
                                      n: nat)
    requires vm.Valid() && forall i :: 0 <= i < |prog| ==> !Diverges(prog[i])
    ensures var hw := Real(sbox, mix);
            RunLoops(Compiled, hw, key, prog, vm, n) == RunLoops(Interpreted, hw, key, prog, vm, n)
  {
    if n > 0 {
      LoopsAgree(sbox, mix, key, prog, vm, n - 1);
      SlotsAgree(sbox, mix, key, prog, RunLoops(Interpreted, Real(sbox, mix), key, prog, vm, n - 1));
    }
  }

  // ----- the diverging side -----

  lemma OrWitness(w: bv64)
    requires w <= 0xFFFF_FFFF
    ensures var x: bv64 := 0x100_0000_0000; Rol(x, 17) ^ (Rol(x, 17) | w) != Rol(x, 17) ^ (x | w)
  {
    assert Rol(0x100_0000_0000, 17) == 0x200_0000_0000_0000;
  }

  function LowBit(w: bv64): bv64 { w & (0 - w) }

  lemma AndWitness(w: bv64)
    requires 0 < w <= 0xFFFF_FFFF
    ensures var x := LowBit(w); Rol(x, 23) ^ (Rol(x, 23) & w) != Rol(x, 23) ^ (x & w)
  {
  }

  lemma AndnWitness(w: bv64)
    requires 0 < w <= 0xFFFF_FFFF
    ensures var x := LowBit(w); Rol(x, 29) ^ (!Rol(x, 29) & w) != Rol(x, 29) ^ (!x & w)
  {
  }

  lemma TurnWitness(k: bv64)
    requires k & 1 == 1 && k < 64
    ensures Rol(1, k) ^ Rol(1, k) != Rol(1, k) ^ 1 && Rol(1, k) + Rol(1, k) != Rol(1, k) + 1
    ensures Ror(1, k) ^ Ror(1, k) != Ror(1, k) ^ 1 && Ror(1, k) + Ror(1, k) != Ror(1, k) + 1
  {
    assert Rol(1, k) != 1;
    assert Ror(1, k) != 1;
  }

  lemma TurnIsOdd(imm: bv32)
    ensures var k := (Turn(imm) as bv32) as bv64; k & 1 == 1 && k < 64
  {
  }

  /** A register value on which a diverging slot shows the difference. */
  function Witness(slot: Instr): Word {
    match slot.op
    case Or => Word(0x100_0000_0000)
    case And => Word(LowBit(slot.imm as bv64))
    case Andn => Word(LowBit(slot.imm as bv64))
    case _ => Word(1)
  }

  /** The result depends on whether the source is read before or after the rotation. */
  predicate OperandMatters(hw: Hw, op: Op, x: Word, imm: bv32) {
    AluResult(hw, op, x, Rotated(hw, op, x, imm), imm) != AluResult(hw, op, x, x, imm)
  }

  lemma OrMatters(hw: Hw, sbox: bv8 -> bv8, mix: Block -> Block, slot: Instr)
    requires hw == Real(sbox, mix) && slot.op == Or && Diverges(slot)
    ensures OperandMatters(hw, slot.op, Witness(slot), slot.imm)
  {
    var w := slot.imm as bv64;
    OrWitness(w);
  }

  lemma AndMatters(hw: Hw, sbox: bv8 -> bv8, mix: Block -> Block, slot: Instr)
    requires hw == Real(sbox, mix) && slot.op == And && Diverges(slot)
    ensures OperandMatters(hw, slot.op, Witness(slot), slot.imm)
  {
    var w := slot.imm as bv64;
    AndWitness(w);
  }

  lemma AndnMatters(hw: Hw, sbox: bv8 -> bv8, mix: Block -> Block, slot: Instr)
    requires hw == Real(sbox, mix) && slot.op == Andn && Diverges(slot)
    ensures OperandMatters(hw, slot.op, Witness(slot), slot.imm)
  {
    var w := slot.imm as bv64;
    AndnWitness(w);
  }

  lemma RolxMatters(hw: Hw, sbox: bv8 -> bv8, mix: Block -> Block, slot: Instr)
    requires hw == Real(sbox, mix) && slot.op == Rolx && Diverges(slot)
    ensures OperandMatters(hw, slot.op, Witness(slot), slot.imm)
  {
    TurnIsOdd(slot.imm);
    TurnWitness((Turn(slot.imm) as bv32) as bv64);
  }

  lemma RolaMatters(hw: Hw, sbox: bv8 -> bv8, mix: Block -> Block, slot: Instr)
    requires hw == Real(sbox, mix) && slot.op == Rola && Diverges(slot)
    ensures OperandMatters(hw, slot.op, Witness(slot), slot.imm)
  {
    TurnIsOdd(slot.imm);
    TurnWitness((Turn(slot.imm) as bv32) as bv64);
  }

  lemma RorxMatters(hw: Hw, sbox: bv8 -> bv8, mix: Block -> Block, slot: Instr)
    requires hw == Real(sbox, mix) && slot.op == Rorx && Diverges(slot)
    ensures OperandMatters(hw, slot.op, Witness(slot), slot.imm)
  {
    TurnIsOdd(slot.imm);
    TurnWitness((Turn(slot.imm) as bv32) as bv64);
  }

  lemma RoraMatters(hw: Hw, sbox: bv8 -> bv8, mix: Block -> Block, slot: Instr)
    requires hw == Real(sbox, mix) && slot.op == Rora && Diverges(slot)
    ensures OperandMatters(hw, slot.op, Witness(slot), slot.imm)
  {
    TurnIsOdd(slot.imm);
    TurnWitness((Turn(slot.imm) as bv32) as bv64);
  }

  lemma WitnessShows(hw: Hw, sbox: bv8 -> bv8, mix: Block -> Block, slot: Instr)
    requires hw == Real(sbox, mix) && Diverges(slot)
    ensures OperandMatters(hw, slot.op, Witness(slot), slot.imm)
  {
    hide OperandMatters, Witness, Real;
    match slot.op {
      case Or => OrMatters(hw, sbox, mix, slot);
      case And => AndMatters(hw, sbox, mix, slot);
      case Andn => AndnMatters(hw, sbox, mix, slot);
      case Rolx => RolxMatters(hw, sbox, mix, slot);
      case Rola => RolaMatters(hw, sbox, mix, slot);
      case Rorx => RorxMatters(hw, sbox, mix, slot);
      case Rora => RoraMatters(hw, sbox, mix, slot);
    }
  }

  /** Every diverging slot differs on some machine state. */
  lemma SlotDiverges(sbox: bv8 -> bv8, mix: Block -> Block, key: Block, slot: Instr, sc: seq<Word>) returns (vm: Vm)
    requires |sc| == 8192 && Diverges(slot)
    ensures vm.Valid()
    ensures var hw := Real(sbox, mix); CompiledStep(hw, key, slot, vm) != Step(hw, key, slot, vm)
  {
    var hw := Real(sbox, mix);
    hide Witness, AluResult, Rotated, Real;
    var x := Witness(slot);
    vm := Vm(seq(8, _ => x), sc);
    WitnessShows(hw, sbox, mix, slot);
    assert CompiledStep(hw, key, slot, vm).r[slot.d]
        == AluResult(hw, slot.op, x, Rotated(hw, slot.op, x, slot.imm), slot.imm);
    assert Step(hw, key, slot, vm).r[slot.d] == AluResult(hw, slot.op, x, x, slot.imm);
  }

  /** Compiled and interpreted slots coincide on every state exactly when the slot does not
      diverge, a condition on the slot's own fields. */
  lemma AgreementIff(sbox: bv8 -> bv8, mix: Block -> Block, key: Block, slot: Instr)
    ensures var hw := Real(sbox, mix);
            (forall vm: Vm :: vm.Valid() ==> CompiledStep(hw, key, slot, vm) == Step(hw, key, slot, vm))
            <==> !Diverges(slot)
  {
    if Diverges(slot) {
      var vm := SlotDiverges(sbox, mix, key, slot, seq(8192, _ => Word(0)));
    } else {
      forall vm: Vm | vm.Valid()
        ensures var hw := Real(sbox, mix); CompiledStep(hw, key, slot, vm) == Step(hw, key, slot, vm)
      {
        SlotAgrees(sbox, mix, key, slot, vm);
      }
    }
  }
}
