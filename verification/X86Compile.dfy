/** The x86-64 compiler: the instructions of each slot, and what running them does. */
module X86Compile {
  import opened Hardware
  import opened Isochron
  import opened X86

  /** The machine register that holds a virtual one for the whole body. */
  function Pin(i: Reg): (p: XReg)
    ensures p in {3, 5, 8, 9, 12, 13, 14, 15}
    ensures Unpin(p) == i
  {
    [3, 5, 12, 13, 14, 15, 8, 9][i]
  }

  function Unpin(p: XReg): Reg {
    match p
    case 3 => 0
    case 5 => 1
    case 12 => 2
    case 13 => 3
    case 14 => 4
    case 15 => 5
    case 8 => 6
    case _ => 7
  }

  function ImmOp(op: AluOp, dst: XReg, imm: bv32): seq<XInstr> { [MovImm32(RCX, imm), Alu(op, dst, RCX)] }

  /** Leaves in rax the masked offset that `src` and `k` select. */
  function Addr(src: XReg, k: bv32, mask: bv32, tmp: XReg): seq<XInstr> {
    [Alu(AluMov, RAX, src), MovImm32(tmp, k), Alu(AluXor, RAX, tmp)]
    + [Imul(RAX, R11), ShrImm(RAX, 40), AndEax(mask)]
  }

  /** Combines the addressed word with a register, in rcx and in the pad. */
  function UpdateCode(op: AluOp, d: XReg): seq<XInstr> {
    [Mem(MovLoad, RCX), Alu(op, RCX, d), Mem(MovStore, RCX)]
  }

  /** One AES round on the addressed line; its low lane is combined into a register. */
  function LineCode(d: XReg): seq<XInstr> {
    [LoadLine, AesEncLine, StoreLine] + [MovqRcx, Alu(AluXor, d, RCX)]
  }

  /** What the compiler emits for one slot. */
  function SlotCode(slot: Instr): seq<XInstr> {
    var d, s, imm, k := Pin(slot.d), Pin(slot.s), slot.imm, AddrKey(slot.op, slot.imm);
    match slot.op
    case Add => [Alu(AluAdd, d, s)] + ImmOp(AluXor, d, imm)
    case Sub => [Alu(AluSub, d, s)] + ImmOp(AluXor, d, imm)
    case Xor => [Alu(AluXor, d, s)] + ImmOp(AluAdd, d, imm)
    case Or => [RotImm(false, d, 17), MovImm32(RCX, imm)] + [Alu(AluOr, RCX, s), Alu(AluXor, d, RCX)]
    case And => [RotImm(false, d, 23), MovImm32(RCX, imm)] + [Alu(AluAnd, RCX, s), Alu(AluXor, d, RCX)]
    case Andn =>
      [RotImm(false, d, 29), Alu(AluMov, RDX, s), Not(RDX)]
      + [MovImm32(RCX, imm), Alu(AluAnd, RCX, RDX), Alu(AluXor, d, RCX)]
    case Rolx => [RotImm(false, d, Turn(imm)), Alu(AluXor, d, s)]
    case Rola => [RotImm(false, d, Turn(imm)), Alu(AluAdd, d, s)]
    case Rorx => [RotImm(true, d, Turn(imm)), Alu(AluXor, d, s)]
    case Rora => [RotImm(true, d, Turn(imm)), Alu(AluAdd, d, s)]
    case Vrol => [Alu(AluMov, RCX, s), RotCl(false, d)] + ImmOp(AluXor, d, imm)
    case Vror => [Alu(AluMov, RCX, s), RotCl(true, d)] + ImmOp(AluAdd, d, imm)
    case Load => Addr(s, k, SCRATCH_MASK, RCX) + [Mem(XorLoad, d)]
    case Loadb => Addr(s, k, SCRATCH_MASK, RCX) + [Mem(XorLoad, d)]
    case Store => Addr(d, k, SCRATCH_MASK, RCX) + [Mem(AddStore, s)]
    case Storeb => Addr(d, k, SCRATCH_MASK, RCX) + [Mem(AddStore, s)]
    case Rmw =>
      Addr(s, k, SCRATCH_MASK, RCX) + UpdateCode(AluAdd, d)
      + Addr(RCX, C2, SCRATCH_MASK, RDX) + [Mem(XorLoad, d)]
    case Rmwb =>
      Addr(s, k, SCRATCH_MASK, RCX) + UpdateCode(AluXor, d)
      + Addr(RCX, C1, SCRATCH_MASK, RDX) + [Mem(AddLoad, d)]
    case Mullo => [Alu(AluMov, RCX, s), OrImm8(RCX, 1), Imul(d, RCX)]
    case Mulhi =>
      [Alu(AluMov, RCX, s), OrImm8(RCX, 1), Alu(AluMov, RAX, d)] + [MulRax(RCX), Alu(AluMov, d, RDX)]
      + ImmOp(AluXor, d, imm)
    case Aesr =>
      Addr(s, k, LINE_MASK, RCX) + LineCode(d)
  }

  // ----- the correspondence -----

  /** The virtual machine a machine state holds. */
  function View(st: XState): (vm: Vm)
    requires st.Valid()
    ensures vm.Valid()
    ensures forall i: Reg :: vm.r[i] == st.r[Pin(i)]
  {
    Vm([st.r[3], st.r[5], st.r[12], st.r[13], st.r[14], st.r[15], st.r[8], st.r[9]], st.pad)
  }

  /** What every slot relies on and re-establishes. */
  ghost predicate Pinned(hw: Hw, key: Block, st: XState) {
    && st.Valid() && st.ok && st.lt == Undefined
    && st.r[7] == st.padBase && st.r[11] == hw.imm64(MULT) && st.x0 == key
  }

  /** What no slot changes: the seed, the loop counter, the stack and the addresses. */
  ghost predicate Frame(st: XState, st': XState) {
    && st.Valid() && st'.Valid()
    && st'.r[6] == st.r[6] && st'.r[10] == st.r[10] && st'.r[4] == st.r[4]
    && st'.padBase == st.padBase && st'.keyBase == st.keyBase && st'.key == st.key
    && st'.stack == st.stack
  }

  /** `st'` is `st` with scratch registers and possibly one pinned register changed. */
  ghost predicate Wrote(st: XState, st': XState, d: Reg, v: Word) {
    && st.Valid() && st'.Valid()
    && st' == st.(r := st'.r, lt := st'.lt, x1 := st'.x1, pad := st'.pad)
    && st'.r[Pin(d)] == v
    && (forall j: XReg :: j !in {0, 1, 2, Pin(d)} ==> st'.r[j] == st.r[j])
  }

  lemma WroteView(hw: Hw, key: Block, st: XState, st': XState, d: Reg, v: Word)
    requires Pinned(hw, key, st) && Wrote(st, st', d, v) && st'.lt == Undefined
    ensures Pinned(hw, key, st') && Frame(st, st')
    ensures View(st') == SetReg(View(st), d, v).(sc := st'.pad)
  {
    var vm, vm' := SetReg(View(st), d, v), View(st');
    forall i: Reg ensures vm'.r[i] == vm.r[i] {
      assert Unpin(Pin(i)) == i && Unpin(Pin(d)) == d;
    }
    assert vm'.r == vm.r;
  }

  ghost predicate SlotRuns(hw: Hw, key: Block, slot: Instr, st: XState) {
    && Pinned(hw, key, st)
    && var st' := ExecAll(hw, SlotCode(slot), st);
       Pinned(hw, key, st') && Frame(st, st') && View(st') == CompiledStep(hw, key, slot, View(st))
  }

  // ----- fragments -----

  lemma RunImmOp(hw: Hw, op: AluOp, dst: XReg, imm: bv32, st: XState)
    requires st.Valid() && dst != 1
    ensures ExecAll(hw, ImmOp(op, dst, imm), st)
         == st.(r := st.r[1 := hw.zx(imm)][dst := AluValue(hw, op, st.r[dst], hw.zx(imm))], lt := Undefined)
  {
    hide Exec;
    var st1 := DoMovImm(hw, RCX, imm, st);
    var st2 := DoAlu(hw, op, dst, RCX, st1);
    ExecTwo(hw, MovImm32(RCX, imm), Alu(op, dst, RCX), st);
  }

  lemma RunAddr(hw: Hw, src: XReg, k: bv32, mask: bv32, tmp: XReg, st: XState)
    requires st.Valid() && st.r[11] == hw.imm64(MULT) && tmp !in {0, 11} && hw.BitwiseLaws()
    ensures ExecAll(hw, Addr(src, k, mask, tmp), st)
         == st.(r := st.r[tmp := hw.zx(k)][0 := hw.and(Mix(hw, st.r[src], k), hw.zx(mask))], lt := Undefined)
  {
    hide Exec, Hw.BitwiseLaws;
    var st1 := DoAlu(hw, AluMov, RAX, src, st);
    var st2 := DoMovImm(hw, tmp, k, st1);
    var st3 := DoAlu(hw, AluXor, RAX, tmp, st2);
    assert st3.r == st.r[tmp := hw.zx(k)][0 := hw.xor(st.r[src], hw.zx(k))];
    var st4 := DoImul(hw, RAX, R11, st3);
    var st5 := DoShr(hw, RAX, 40, st4);
    var st6 := DoAndEax(hw, mask, st5);
    ExecSix(hw, Alu(AluMov, RAX, src), MovImm32(tmp, k), Alu(AluXor, RAX, tmp),
            Imul(RAX, R11), ShrImm(RAX, 40), AndEax(mask), st);
    assert st6.r == st.r[tmp := hw.zx(k)][0 := hw.and(Mix(hw, st.r[src], k), hw.zx(mask))];
  }

  // ----- register-only slots -----

  predicate RegisterOnly(op: Op) { op !in {Load, Store, Rmw, Loadb, Storeb, Rmwb, Aesr} }

  /** A slot whose code writes the right value into its destination and nothing else. */
  lemma Finish(hw: Hw, key: Block, slot: Instr, st: XState, st': XState)
    requires Pinned(hw, key, st) && RegisterOnly(slot.op)
    requires st' == ExecAll(hw, SlotCode(slot), st) && st'.lt == Undefined && st'.pad == st.pad
    requires Wrote(st, st', slot.d,
                   AluResult(hw, slot.op, st.r[Pin(slot.d)], CompiledOperand(hw, slot, View(st).r), slot.imm))
    ensures SlotRuns(hw, key, slot, st)
  {
    hide SlotCode, AluResult, CompiledOperand, ExecAll, Wrote;
    WroteView(hw, key, st, st', slot.d,
              AluResult(hw, slot.op, st.r[Pin(slot.d)], CompiledOperand(hw, slot, View(st).r), slot.imm));
  }

  lemma SlotArith(hw: Hw, key: Block, slot: Instr, st: XState)
    requires Pinned(hw, key, st) && slot.op in {Add, Sub, Xor}
    ensures SlotRuns(hw, key, slot, st)
  {
    hide Exec, SlotRuns;
    var d, s := Pin(slot.d), Pin(slot.s);
    var op := if slot.op == Add then AluAdd else if slot.op == Sub then AluSub else AluXor;
    var op2 := if slot.op == Xor then AluAdd else AluXor;
    var st1 := DoAlu(hw, op, d, s, st);
    ExecAppend(hw, [Alu(op, d, s)], ImmOp(op2, d, slot.imm), st);
    ExecOne(hw, Alu(op, d, s), st);
    RunImmOp(hw, op2, d, slot.imm, st1);
    Finish(hw, key, slot, st, ExecAll(hw, SlotCode(slot), st));
  }

  lemma SlotLogic(hw: Hw, key: Block, slot: Instr, st: XState)
    requires Pinned(hw, key, st) && slot.op in {Or, And} && hw.BitwiseLaws()
    ensures SlotRuns(hw, key, slot, st)
  {
    hide Exec, SlotRuns, Hw.BitwiseLaws;
    var d, s := Pin(slot.d), Pin(slot.s);
    var op, k: bv8 := if slot.op == Or then AluOr else AluAnd, if slot.op == Or then 17 else 23;
    var st1 := DoRot(hw, false, d, k, st);
    var st2 := DoMovImm(hw, RCX, slot.imm, st1);
    var st3 := DoAlu(hw, op, RCX, s, st2);
    var st4 := DoAlu(hw, AluXor, d, RCX, st3);
    ExecFour(hw, RotImm(false, d, k), MovImm32(RCX, slot.imm), Alu(op, RCX, s), Alu(AluXor, d, RCX), st);
    Commute(hw, hw.zx(slot.imm), st1.r[s]);
    Finish(hw, key, slot, st, st4);
  }

  lemma Commute(hw: Hw, x: Word, y: Word)
    requires hw.BitwiseLaws()
    ensures hw.and(x, y) == hw.and(y, x) && hw.or(x, y) == hw.or(y, x)
  {
  }

  lemma SlotAndn(hw: Hw, key: Block, slot: Instr, st: XState)
    requires Pinned(hw, key, st) && slot.op == Andn && hw.BitwiseLaws()
    ensures SlotRuns(hw, key, slot, st)
  {
    hide Exec, SlotRuns, Hw.BitwiseLaws;
    var d, s := Pin(slot.d), Pin(slot.s);
    var st1 := DoRot(hw, false, d, 29, st);
    var st2 := DoAlu(hw, AluMov, RDX, s, st1);
    var st3 := DoNot(hw, RDX, st2);
    var st4 := DoMovImm(hw, RCX, slot.imm, st3);
    var st5 := DoAlu(hw, AluAnd, RCX, RDX, st4);
    var st6 := DoAlu(hw, AluXor, d, RCX, st5);
    ExecSix(hw, RotImm(false, d, 29), Alu(AluMov, RDX, s), Not(RDX), MovImm32(RCX, slot.imm),
            Alu(AluAnd, RCX, RDX), Alu(AluXor, d, RCX), st);
    Commute(hw, hw.zx(slot.imm), hw.not(st1.r[s]));
    Finish(hw, key, slot, st, st6);
  }

  lemma SlotRotateLeft(hw: Hw, key: Block, slot: Instr, st: XState)
    requires Pinned(hw, key, st) && slot.op in {Rolx, Rola}
    ensures SlotRuns(hw, key, slot, st)
  {
    hide Exec, SlotRuns, Turn;
    var d, s, op := Pin(slot.d), Pin(slot.s), if slot.op == Rolx then AluXor else AluAdd;
    var st1 := DoRot(hw, false, d, Turn(slot.imm), st);
    var st2 := DoAlu(hw, op, d, s, st1);
    ExecTwo(hw, RotImm(false, d, Turn(slot.imm)), Alu(op, d, s), st);
    Finish(hw, key, slot, st, st2);
  }

  lemma SlotRotateRight(hw: Hw, key: Block, slot: Instr, st: XState)
    requires Pinned(hw, key, st) && slot.op in {Rorx, Rora}
    ensures SlotRuns(hw, key, slot, st)
  {
    hide Exec, SlotRuns, Turn;
    var d, s, op := Pin(slot.d), Pin(slot.s), if slot.op == Rorx then AluXor else AluAdd;
    var st1 := DoRot(hw, true, d, Turn(slot.imm), st);
    var st2 := DoAlu(hw, op, d, s, st1);
    ExecTwo(hw, RotImm(true, d, Turn(slot.imm)), Alu(op, d, s), st);
    Finish(hw, key, slot, st, st2);
  }

  lemma SlotRotateBy(hw: Hw, key: Block, slot: Instr, st: XState)
    requires Pinned(hw, key, st) && slot.op in {Vrol, Vror}
    ensures SlotRuns(hw, key, slot, st)
  {
    hide Exec, SlotRuns;
    var d, s := Pin(slot.d), Pin(slot.s);
    var right, op := slot.op == Vror, if slot.op == Vrol then AluXor else AluAdd;
    var st1 := DoAlu(hw, AluMov, RCX, s, st);
    var st2 := DoRotCl(hw, right, d, st1);
    ExecTwo(hw, Alu(AluMov, RCX, s), RotCl(right, d), st);
    ExecAppend(hw, [Alu(AluMov, RCX, s), RotCl(right, d)], ImmOp(op, d, slot.imm), st);
    RunImmOp(hw, op, d, slot.imm, st2);
    Finish(hw, key, slot, st, ExecAll(hw, SlotCode(slot), st));
  }

  lemma SlotMullo(hw: Hw, key: Block, slot: Instr, st: XState)
    requires Pinned(hw, key, st) && slot.op == Mullo && hw.ImmediateLaws()
    ensures SlotRuns(hw, key, slot, st)
  {
    hide Exec, SlotRuns, Hw.ImmediateLaws;
    var d, s := Pin(slot.d), Pin(slot.s);
    var st1 := DoAlu(hw, AluMov, RCX, s, st);
    var st2 := DoOrOne(hw, RCX, st1);
    var st3 := DoImul(hw, d, RCX, st2);
    ExecThree(hw, Alu(AluMov, RCX, s), OrImm8(RCX, 1), Imul(d, RCX), st);
    Finish(hw, key, slot, st, st3);
  }

  lemma SlotMulhi(hw: Hw, key: Block, slot: Instr, st: XState)
    requires Pinned(hw, key, st) && slot.op == Mulhi && hw.ImmediateLaws()
    ensures SlotRuns(hw, key, slot, st)
  {
    hide Exec, SlotRuns, Hw.ImmediateLaws;
    var d, s := Pin(slot.d), Pin(slot.s);
    var st1 := DoAlu(hw, AluMov, RCX, s, st);
    var st2 := DoOrOne(hw, RCX, st1);
    var st3 := DoAlu(hw, AluMov, RAX, d, st2);
    var st4 := DoMulRax(hw, RCX, st3);
    var st5 := DoAlu(hw, AluMov, d, RDX, st4);
    var front, back := [Alu(AluMov, RCX, s), OrImm8(RCX, 1), Alu(AluMov, RAX, d)], [MulRax(RCX), Alu(AluMov, d, RDX)];
    ExecThree(hw, front[0], front[1], front[2], st);
    ExecTwo(hw, back[0], back[1], st3);
    ExecAppend(hw, front, back, st);
    ExecAppend(hw, front + back, ImmOp(AluXor, d, slot.imm), st);
    RunImmOp(hw, AluXor, d, slot.imm, st5);
    Finish(hw, key, slot, st, ExecAll(hw, SlotCode(slot), st));
  }

  // ----- slots that touch the pad -----

  /** The address code in front of a memory slot, and what it leaves. */
  lemma AtAddress(hw: Hw, key: Block, src: XReg, k: bv32, tmp: XReg, st: XState) returns (st': XState)
    requires Pinned(hw, key, st) && hw.BitwiseLaws() && hw.MaskLaws() && tmp in {1, 2}
    ensures st' == ExecAll(hw, Addr(src, k, SCRATCH_MASK, tmp), st)
    ensures st' == st.(r := st'.r, lt := Undefined) && InPad(hw, st', 8)
    ensures hw.value(st'.r[0]) == AddrOf(hw, st.r[src], k)
    ensures forall j: XReg :: j !in {0, tmp} ==> st'.r[j] == st.r[j]
    ensures Addressed(hw, st, st', AddrOf(hw, st.r[src], k))
  {
    hide ExecAll, Hw.BitwiseLaws;
    RunAddr(hw, src, k, SCRATCH_MASK, tmp, st);
    st' := ExecAll(hw, Addr(src, k, SCRATCH_MASK, tmp), st);
  }

  lemma CompiledMemory(hw: Hw, key: Block, slot: Instr, vm: Vm)
    requires vm.Valid()
    ensures var d, s, k := slot.d, slot.s, AddrKey(slot.op, slot.imm);
            && (slot.op in {Load, Loadb} ==>
                  CompiledStep(hw, key, slot, vm) == LoadStep(hw, vm, d, AddrOf(hw, vm.r[s], k)))
            && (slot.op in {Store, Storeb} ==>
                  CompiledStep(hw, key, slot, vm) == StoreStep(hw, vm, s, AddrOf(hw, vm.r[d], k)))
            && (slot.op == Rmw ==> CompiledStep(hw, key, slot, vm) == RmwStep(hw, vm, d, AddrOf(hw, vm.r[s], k)))
            && (slot.op == Rmwb ==> CompiledStep(hw, key, slot, vm) == RmwbStep(hw, vm, d, AddrOf(hw, vm.r[s], k)))
            && (slot.op == Aesr ==> CompiledStep(hw, key, slot, vm) == AesStep(hw, key, vm, d, LineOf(hw, vm.r[s], k)))
  {
    hide LoadStep, StoreStep, RmwStep, RmwbStep, AesStep, AddrOf, LineOf, AddrKey;
  }

  lemma Conclude(hw: Hw, key: Block, slot: Instr, code: seq<XInstr>, st: XState, st': XState)
    requires Pinned(hw, key, st) && SlotCode(slot) == code && st' == ExecAll(hw, code, st)
    requires Pinned(hw, key, st') && Frame(st, st') && View(st') == CompiledStep(hw, key, slot, View(st))
    ensures SlotRuns(hw, key, slot, st)
  {
    hide SlotCode, ExecAll, CompiledStep;
  }

  /** `st1` differs from `st` in scratch registers only and addresses offset `o`. */
  ghost predicate Addressed(hw: Hw, st: XState, st1: XState, o: nat) {
    && st.Valid() && st1.Valid()
    && st1 == st.(r := st1.r, lt := Undefined)
    && InPad(hw, st1, 8) && hw.value(st1.r[0]) == o
    && (forall j: XReg :: j !in {0, 1, 2} ==> st1.r[j] == st.r[j])
  }

  lemma AfterLoad(hw: Hw, key: Block, d: Reg, o: nat, st: XState, st1: XState, add: bool)
    requires Pinned(hw, key, st) && Addressed(hw, st, st1, o)
    ensures var st2 := ExecMem(hw, if add then AddLoad else XorLoad, Pin(d), st1);
            var x, y := View(st).r[d], ReadAt(View(st), o);
            && Pinned(hw, key, st2) && Frame(st, st2)
            && View(st2) == SetReg(View(st), d, if add then hw.add(x, y) else hw.xor(x, y))
  {
    var st2 := ExecMem(hw, if add then AddLoad else XorLoad, Pin(d), st1);
    WroteView(hw, key, st, st2, d, st2.r[Pin(d)]);
  }

  lemma AfterStore(hw: Hw, key: Block, s: Reg, o: nat, st: XState, st1: XState)
    requires Pinned(hw, key, st) && Addressed(hw, st, st1, o)
    ensures var st2 := ExecMem(hw, AddStore, Pin(s), st1);
            Pinned(hw, key, st2) && Frame(st, st2) && View(st2) == StoreStep(hw, View(st), s, o)
  {
    var st2 := ExecMem(hw, AddStore, Pin(s), st1);
    WroteView(hw, key, st, st2, s, st2.r[Pin(s)]);
    assert SetReg(View(st), s, st.r[Pin(s)]).r == View(st).r;
  }

  lemma SlotLoad(hw: Hw, key: Block, slot: Instr, st: XState)
    requires Pinned(hw, key, st) && slot.op in {Load, Loadb} && hw.BitwiseLaws() && hw.MaskLaws()
    ensures SlotRuns(hw, key, slot, st)
  {
    var d, s, k := Pin(slot.d), Pin(slot.s), AddrKey(slot.op, slot.imm);
    var code := Addr(s, k, SCRATCH_MASK, RCX) + [Mem(XorLoad, d)];
    assert SlotCode(slot) == code;
    hide Exec, Hw.BitwiseLaws, Hw.MaskLaws, Addr, AddrOf, SlotCode, CompiledStep, SlotRuns, ExecMem, ExecAll;
    var st1 := AtAddress(hw, key, s, k, RCX, st);
    var st2 := DoMem(hw, XorLoad, d, st1);
    ExecAppend(hw, Addr(s, k, SCRATCH_MASK, RCX), [Mem(XorLoad, d)], st);
    ExecOne(hw, Mem(XorLoad, d), st1);
    AfterLoad(hw, key, slot.d, AddrOf(hw, st.r[s], k), st, st1, false);
    CompiledMemory(hw, key, slot, View(st));
    Conclude(hw, key, slot, code, st, st2);
  }

  lemma SlotStore(hw: Hw, key: Block, slot: Instr, st: XState)
    requires Pinned(hw, key, st) && slot.op in {Store, Storeb} && hw.BitwiseLaws() && hw.MaskLaws()
    ensures SlotRuns(hw, key, slot, st)
  {
    var d, s, k := Pin(slot.d), Pin(slot.s), AddrKey(slot.op, slot.imm);
    var code := Addr(d, k, SCRATCH_MASK, RCX) + [Mem(AddStore, s)];
    assert SlotCode(slot) == code;
    hide Exec, Hw.BitwiseLaws, Hw.MaskLaws, Addr, AddrOf, SlotCode, CompiledStep, SlotRuns, ExecMem, ExecAll;
    var st1 := AtAddress(hw, key, d, k, RCX, st);
    var st2 := DoMem(hw, AddStore, s, st1);
    ExecAppend(hw, Addr(d, k, SCRATCH_MASK, RCX), [Mem(AddStore, s)], st);
    ExecOne(hw, Mem(AddStore, s), st1);
    AfterStore(hw, key, slot.s, AddrOf(hw, st.r[d], k), st, st1);
    CompiledMemory(hw, key, slot, View(st));
    Conclude(hw, key, slot, code, st, st2);
  }

  /** The read-modify-write in the middle: the new word is in rcx and in the pad. */
  lemma AfterUpdate(hw: Hw, key: Block, op: AluOp, d: Reg, o: nat, st: XState, st1: XState) returns (st2: XState)
    requires Pinned(hw, key, st) && Addressed(hw, st, st1, o)
    ensures st2 == ExecAll(hw, UpdateCode(op, Pin(d)), st1)
    ensures var v := AluValue(hw, op, ReadAt(View(st), o), View(st).r[d]);
            && Pinned(hw, key, st2) && Frame(st, st2)
            && st2.r[1] == v && View(st2) == WriteAt(View(st), o, v)
  {
    hide Exec;
    var a := DoMem(hw, MovLoad, RCX, st1);
    var b := DoAlu(hw, op, RCX, Pin(d), a);
    st2 := DoMem(hw, MovStore, RCX, b);
    ExecThree(hw, Mem(MovLoad, RCX), Alu(op, RCX, Pin(d)), Mem(MovStore, RCX), st1);
    WroteView(hw, key, st, st2, d, st.r[Pin(d)]);
    assert SetReg(View(st), d, st.r[Pin(d)]).r == View(st).r;
  }

  /** Update at the first address, then combine with the word at the second. */
  lemma RunUpdateLoad(hw: Hw, key: Block, op: AluOp, d: Reg, s: Reg, k: bv32, k2: bv32, add: bool, st: XState)
      returns (st': XState)
    requires Pinned(hw, key, st) && hw.BitwiseLaws() && hw.MaskLaws()
    ensures st' == ExecAll(hw, Addr(Pin(s), k, SCRATCH_MASK, RCX) + UpdateCode(op, Pin(d))
                               + Addr(RCX, k2, SCRATCH_MASK, RDX)
                               + [Mem(if add then AddLoad else XorLoad, Pin(d))], st)
    ensures var vm := View(st);
            var o := AddrOf(hw, vm.r[s], k);
            var v := AluValue(hw, op, ReadAt(vm, o), vm.r[d]);
            var vm1 := WriteAt(vm, o, v);
            var x, y := vm.r[d], ReadAt(vm1, AddrOf(hw, v, k2));
            && Pinned(hw, key, st') && Frame(st, st')
            && View(st') == SetReg(vm1, d, if add then hw.add(x, y) else hw.xor(x, y))
  {
    hide Exec, ExecAll, ExecMem, Hw.BitwiseLaws, Hw.MaskLaws, Addr, AddrOf, Addressed, UpdateCode, AluValue;
    var mop := if add then AddLoad else XorLoad;
    var c1, c2, c3 := Addr(Pin(s), k, SCRATCH_MASK, RCX), UpdateCode(op, Pin(d)), Addr(RCX, k2, SCRATCH_MASK, RDX);
    var st1 := AtAddress(hw, key, Pin(s), k, RCX, st);
    var st2 := AfterUpdate(hw, key, op, d, AddrOf(hw, st.r[Pin(s)], k), st, st1);
    var st3 := AtAddress(hw, key, RCX, k2, RDX, st2);
    st' := DoMem(hw, mop, Pin(d), st3);
    AfterLoad(hw, key, d, AddrOf(hw, st2.r[1], k2), st2, st3, add);
    ExecAppend(hw, c1, c2, st);
    ExecAppend(hw, c1 + c2, c3, st);
    ExecAppend(hw, c1 + c2 + c3, [Mem(mop, Pin(d))], st);
    ExecOne(hw, Mem(mop, Pin(d)), st3);
  }

  lemma SlotRmw(hw: Hw, key: Block, slot: Instr, st: XState)
    requires Pinned(hw, key, st) && slot.op in {Rmw, Rmwb} && hw.BitwiseLaws() && hw.MaskLaws()
    ensures SlotRuns(hw, key, slot, st)
  {
    var d, s, k := Pin(slot.d), Pin(slot.s), AddrKey(slot.op, slot.imm);
    var op, add, k2 := if slot.op == Rmw then AluAdd else AluXor, slot.op == Rmwb, if slot.op == Rmw then C2 else C1;
    var code := Addr(s, k, SCRATCH_MASK, RCX) + UpdateCode(op, d) + Addr(RCX, k2, SCRATCH_MASK, RDX)
                + [Mem(if add then AddLoad else XorLoad, d)];
    assert SlotCode(slot) == code;
    hide Hw.BitwiseLaws, Hw.MaskLaws, Addr, AddrOf, SlotCode, CompiledStep, SlotRuns, ExecAll, UpdateCode;
    var st' := RunUpdateLoad(hw, key, op, slot.d, slot.s, k, k2, add, st);
    CompiledMemory(hw, key, slot, View(st));
    Conclude(hw, key, slot, code, st, st');
  }

  /** The round on the addressed line; AESENC's order of steps is the round's. */
  lemma AfterLine(hw: Hw, key: Block, d: Reg, o: nat, st: XState, st1: XState) returns (st2: XState)
    requires Pinned(hw, key, st) && Addressed(hw, st, st1, o) && o % 16 == 0 && hw.AesLaws()
    ensures st2 == ExecAll(hw, LineCode(Pin(d)), st1)
    ensures Pinned(hw, key, st2) && Frame(st, st2) && View(st2) == AesStep(hw, key, View(st), d, o)
  {
    hide Exec, ExecAll;
    var a := DoAes(hw, st1);
    var b := DoMovq(hw, a);
    st2 := DoAlu(hw, AluXor, Pin(d), RCX, b);
    ExecTwo(hw, MovqRcx, Alu(AluXor, Pin(d), RCX), a);
    ExecAppend(hw, [LoadLine, AesEncLine, StoreLine], [MovqRcx, Alu(AluXor, Pin(d), RCX)], st1);
    WroteView(hw, key, st, st2, d, hw.xor(st.r[Pin(d)], a.x1.lo));
  }

  lemma AtLine(hw: Hw, key: Block, src: XReg, k: bv32, st: XState) returns (st': XState)
    requires Pinned(hw, key, st) && hw.BitwiseLaws() && hw.MaskLaws()
    ensures st' == ExecAll(hw, Addr(src, k, LINE_MASK, RCX), st)
    ensures Addressed(hw, st, st', LineOf(hw, st.r[src], k)) && LineOf(hw, st.r[src], k) % 16 == 0
  {
    hide ExecAll, Hw.BitwiseLaws;
    RunAddr(hw, src, k, LINE_MASK, RCX, st);
    st' := ExecAll(hw, Addr(src, k, LINE_MASK, RCX), st);
  }

  lemma SlotAes(hw: Hw, key: Block, slot: Instr, st: XState)
    requires Pinned(hw, key, st) && slot.op == Aesr && hw.BitwiseLaws() && hw.MaskLaws() && hw.AesLaws()
    ensures SlotRuns(hw, key, slot, st)
  {
    var s, k := Pin(slot.s), AddrKey(slot.op, slot.imm);
    var c1, c2 := Addr(s, k, LINE_MASK, RCX), LineCode(Pin(slot.d));
    assert SlotCode(slot) == c1 + c2;
    hide Hw.BitwiseLaws, Hw.MaskLaws, Hw.AesLaws, Addr, LineOf, SlotCode, LineCode, CompiledStep, SlotRuns, ExecAll,
      AesStep;
    var st1 := AtLine(hw, key, s, k, st);
    var st2 := AfterLine(hw, key, slot.d, LineOf(hw, st.r[s], k), st, st1);
    ExecAppend(hw, c1, c2, st);
    CompiledMemory(hw, key, slot, View(st));
    Conclude(hw, key, slot, c1 + c2, st, st2);
  }

  /** Running the code of any slot performs that slot on the pinned registers and the pad,
      and keeps everything else a slot may not touch. */
  lemma SlotCorrect(hw: Hw, key: Block, slot: Instr, st: XState)
    requires Pinned(hw, key, st) && hw.Lawful()
    ensures SlotRuns(hw, key, slot, st)
  {
    hide SlotRuns, Hw.BitwiseLaws, Hw.MaskLaws, Hw.AesLaws, Hw.RotationLaws, Hw.ImmediateLaws, Hw.CounterLaws;
    match slot.op {
      case Add | Sub | Xor => SlotArith(hw, key, slot, st);
      case Or | And => SlotLogic(hw, key, slot, st);
      case Andn => SlotAndn(hw, key, slot, st);
      case Rolx | Rola => SlotRotateLeft(hw, key, slot, st);
      case Rorx | Rora => SlotRotateRight(hw, key, slot, st);
      case Vrol | Vror => SlotRotateBy(hw, key, slot, st);
      case Load | Loadb => SlotLoad(hw, key, slot, st);
      case Store | Storeb => SlotStore(hw, key, slot, st);
      case Rmw | Rmwb => SlotRmw(hw, key, slot, st);
      case Mullo => SlotMullo(hw, key, slot, st);
      case Mulhi => SlotMulhi(hw, key, slot, st);
      case Aesr => SlotAes(hw, key, slot, st);
    }
  }
}
