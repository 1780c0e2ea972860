/** The A64 compiler: the instructions of each slot, and what running them does. */
module A64Compile {
  import opened Hardware
  import opened Isochron
  import opened A64

  /** The machine register that holds a virtual one for the whole body. */
  function Pin(i: Reg): AReg { 19 + i }

  const T0: AReg := 9
  const T1: AReg := 10
  const T2: AReg := 14
  const MASK: AReg := 11
  const LINE: AReg := 13
  const COUNTER: AReg := 12
  const PAD: AReg := 27
  const MULTIPLIER: AReg := 28

  function Imm32(d: AReg, v: bv32): seq<AInstr> { [Movz(d, Hw.Lo(v)), Movk(d, Hw.Hi(v), 1)] }

  function ImmOp(op: Op3, d: AReg, tmp: AReg, imm: bv32): seq<AInstr> { Imm32(tmp, imm) + [Alu(op, d, d, tmp)] }

  /** Leaves in x9 the masked offset that `src` and `k` select. */
  function Addr(src: AReg, k: bv32, mask: AReg, tmp: AReg): seq<AInstr> {
    Imm32(tmp, k) + [Alu(EorR, T0, src, tmp), Alu(MulR, T0, T0, MULTIPLIER)]
    + [LsrImm(T0, T0, 40), Alu(AndR, T0, T0, mask)]
  }

  /** Combines the addressed word with a register, in x10 and in the pad. */
  function UpdateCode(op: Op3, x: AReg): seq<AInstr> { [Ldr(T1, PAD, T0), Alu(op, T1, T1, x), Str(T1, PAD, T0)] }

  /** Combines the addressed word into a register. */
  function LoadCode(op: Op3, d: AReg): seq<AInstr> { [Ldr(T1, PAD, T0), Alu(op, d, d, T1)] }

  /** One AES round on the addressed line; its low lane is combined into a register. */
  function LineCode(d: AReg): seq<AInstr> {
    [LdrQ(1, PAD, T0)] + [Aese(1, 2), Aesmc(1, 1), Veor(1, 1, 0)] + [StrQ(1, PAD, T0)]
    + [UmovLo(T1, 1), Alu(EorR, d, d, T1)]
  }

  /** A rotation, an immediate combined with the source, and the result into the destination. */
  function MaskedCode(turn: bv8, mid: AInstr, d: AReg, imm: bv32): seq<AInstr> {
    [RorImm(d, d, turn)] + Imm32(T0, imm) + [mid, Alu(EorR, d, d, T0)]
  }

  /** The right rotation that is the left rotation of an immediate rotate. */
  function Complement(imm: bv32): bv8 { 64 - Turn(imm) }

  /** What the compiler emits for one slot. */
  function SlotCode(slot: Instr): seq<AInstr> {
    var d, s, imm, k := Pin(slot.d), Pin(slot.s), slot.imm, AddrKey(slot.op, slot.imm);
    match slot.op
    case Add => [Alu(AddR, d, d, s)] + ImmOp(EorR, d, T0, imm)
    case Sub => [Alu(SubR, d, d, s)] + ImmOp(EorR, d, T0, imm)
    case Xor => [Alu(EorR, d, d, s)] + ImmOp(AddR, d, T0, imm)
    case Or => MaskedCode(64 - 17, Alu(OrrR, T0, s, T0), d, imm)
    case And => MaskedCode(64 - 23, Alu(AndR, T0, s, T0), d, imm)
    case Andn => MaskedCode(64 - 29, Alu(BicR, T0, T0, s), d, imm)
    case Rolx => [RorImm(d, d, Complement(imm)), Alu(EorR, d, d, s)]
    case Rola => [RorImm(d, d, Complement(imm)), Alu(AddR, d, d, s)]
    case Rorx => [RorImm(d, d, Turn(imm)), Alu(EorR, d, d, s)]
    case Rora => [RorImm(d, d, Turn(imm)), Alu(AddR, d, d, s)]
    case Vrol => [Alu(SubR, T0, 31, s), Alu(RorR, d, d, T0)] + ImmOp(EorR, d, T1, imm)
    case Vror => [Alu(RorR, d, d, s)] + ImmOp(AddR, d, T1, imm)
    case Load => Addr(s, k, MASK, T1) + LoadCode(EorR, d)
    case Loadb => Addr(s, k, MASK, T1) + LoadCode(EorR, d)
    case Store => Addr(d, k, MASK, T1) + UpdateCode(AddR, s)
    case Storeb => Addr(d, k, MASK, T1) + UpdateCode(AddR, s)
    case Rmw => Addr(s, k, MASK, T1) + UpdateCode(AddR, d) + Addr(T1, C2, MASK, T2) + LoadCode(EorR, d)
    case Rmwb => Addr(s, k, MASK, T1) + UpdateCode(EorR, d) + Addr(T1, C1, MASK, T2) + LoadCode(AddR, d)
    case Mullo => [OrrOne(T0, s), Alu(MulR, d, d, T0)]
    case Mulhi => [OrrOne(T0, s), Alu(UmulhR, d, d, T0)] + ImmOp(EorR, d, T1, imm)
    case Aesr => Addr(s, k, LINE, T1) + LineCode(d)
  }

  // ----- the correspondence -----

  /** The virtual machine a machine state holds. */
  function View(st: AState): (vm: Vm)
    requires st.Valid()
    ensures vm.Valid()
    ensures forall i: Reg :: vm.r[i] == st.r[Pin(i)]
  {
    Vm(st.r[19..27], st.pad)
  }

  /** What every slot relies on and re-establishes. */
  ghost predicate Pinned(hw: Hw, key: Block, st: AState) {
    && st.Valid() && st.ok
    && st.r[27] == st.padBase && st.r[28] == hw.imm64(MULT)
    && st.r[11] == hw.zx(SCRATCH_MASK) && st.r[13] == hw.zx(LINE_MASK)
    && st.v[0] == key && st.v[2] == hw.ZeroBlock()
  }

  /** What no slot changes. */
  ghost predicate Frame(st: AState, st': AState) {
    && st.Valid() && st'.Valid()
    && (forall j: AReg :: j < 31 && j !in {9, 10, 14} && !(19 <= j < 27) ==> st'.r[j] == st.r[j])
    && st'.padBase == st.padBase && st'.keyBase == st.keyBase && st'.key == st.key
    && st'.stack == st.stack && st'.lt == st.lt
  }

  /** `st'` is `st` with scratch registers and possibly one pinned register changed. */
  ghost predicate Wrote(st: AState, st': AState, d: Reg, x: Word) {
    && st.Valid() && st'.Valid()
    && st' == st.(r := st'.r, v := st'.v, pad := st'.pad)
    && st'.v[0] == st.v[0] && st'.v[2] == st.v[2]
    && st'.r[Pin(d)] == x
    && (forall j: AReg :: j < 31 && j !in {9, 10, 14, Pin(d)} ==> st'.r[j] == st.r[j])
  }

  lemma WroteView(hw: Hw, key: Block, st: AState, st': AState, d: Reg, x: Word)
    requires Pinned(hw, key, st) && Wrote(st, st', d, x)
    ensures Pinned(hw, key, st') && Frame(st, st')
    ensures View(st') == SetReg(View(st), d, x).(sc := st'.pad)
  {
    var vm, vm' := SetReg(View(st), d, x), View(st');
    forall i: Reg ensures vm'.r[i] == vm.r[i] {
      assert Pin(i) == Pin(d) <==> i == d;
    }
    assert vm'.r == vm.r;
  }

  ghost predicate SlotRuns(hw: Hw, key: Block, slot: Instr, st: AState) {
    && Pinned(hw, key, st)
    && var st' := ExecAll(hw, SlotCode(slot), st);
       Pinned(hw, key, st') && Frame(st, st') && View(st') == CompiledStep(hw, key, slot, View(st))
  }

  lemma Conclude(hw: Hw, key: Block, slot: Instr, code: seq<AInstr>, st: AState, st': AState)
    requires Pinned(hw, key, st) && SlotCode(slot) == code && st' == ExecAll(hw, code, st)
    requires Pinned(hw, key, st') && Frame(st, st') && View(st') == CompiledStep(hw, key, slot, View(st))
    ensures SlotRuns(hw, key, slot, st)
  {
    hide SlotCode, ExecAll, CompiledStep;
  }

  // ----- fragments -----

  lemma RunImm(hw: Hw, d: AReg, v: bv32, st: AState) returns (st': AState)
    requires st.Valid() && d < 31 && hw.ImmediateLaws()
    ensures st' == ExecAll(hw, Imm32(d, v), st) == st.(r := st.r[d := hw.zx(v)])
  {
    hide Exec, ExecAll;
    var st1 := DoMovz(hw, d, Hw.Lo(v), st);
    st' := DoMovk(hw, d, Hw.Hi(v), 1, st1);
    ExecTwo(hw, Movz(d, Hw.Lo(v)), Movk(d, Hw.Hi(v), 1), st);
    assert hw.movk(hw.movz(Hw.Lo(v)), Hw.Hi(v), 1) == hw.zx(v);
  }

  lemma RunImmOp(hw: Hw, op: Op3, d: AReg, tmp: AReg, imm: bv32, st: AState) returns (st': AState)
    requires st.Valid() && d < 31 && tmp < 31 && d != tmp && hw.ImmediateLaws()
    ensures st' == ExecAll(hw, ImmOp(op, d, tmp, imm), st)
         == st.(r := st.r[tmp := hw.zx(imm)][d := Value3(hw, op, st.r[d], hw.zx(imm))])
  {
    hide Exec, ExecAll, Imm32, Hw.ImmediateLaws;
    var st1 := RunImm(hw, tmp, imm, st);
    st' := DoAlu(hw, op, d, d, tmp, st1);
    ExecAppend(hw, Imm32(tmp, imm), [Alu(op, d, d, tmp)], st);
    ExecOne(hw, Alu(op, d, d, tmp), st1);
  }

  lemma RunAddr(hw: Hw, src: AReg, k: bv32, mask: AReg, tmp: AReg, st: AState) returns (st': AState)
    requires st.Valid() && st.r[28] == hw.imm64(MULT) && hw.ImmediateLaws()
    requires src < 31 && mask in {11, 13} && tmp in {10, 14} && src != tmp
    ensures st' == ExecAll(hw, Addr(src, k, mask, tmp), st)
         == st.(r := st.r[tmp := hw.zx(k)][9 := hw.and(Mix(hw, st.r[src], k), st.r[mask])])
  {
    hide Exec, ExecAll, Imm32, Hw.ImmediateLaws;
    var st1 := RunImm(hw, tmp, k, st);
    var st2 := DoAlu(hw, EorR, T0, src, tmp, st1);
    var st3 := DoAlu(hw, MulR, T0, T0, MULTIPLIER, st2);
    var st4 := DoLsr(hw, T0, 40, st3);
    st' := DoAlu(hw, AndR, T0, T0, mask, st4);
    var a, b := [Alu(EorR, T0, src, tmp), Alu(MulR, T0, T0, MULTIPLIER)], [LsrImm(T0, T0, 40), Alu(AndR, T0, T0, mask)];
    ExecAppend(hw, Imm32(tmp, k), a, st);
    ExecAppend(hw, Imm32(tmp, k) + a, b, st);
    ExecTwo(hw, a[0], a[1], st1);
    ExecTwo(hw, b[0], b[1], st3);
    assert st'.r == st.r[tmp := hw.zx(k)][9 := hw.and(Mix(hw, st.r[src], k), st.r[mask])];
  }

  // ----- register-only slots -----

  predicate RegisterOnly(op: Op) { op !in {Load, Store, Rmw, Loadb, Storeb, Rmwb, Aesr} }

  /** A slot whose code writes the right value into its destination and nothing else. */
  lemma Finish(hw: Hw, key: Block, slot: Instr, st: AState, st': AState)
    requires Pinned(hw, key, st) && RegisterOnly(slot.op)
    requires st' == ExecAll(hw, SlotCode(slot), st) && st'.pad == st.pad
    requires Wrote(st, st', slot.d,
                   AluResult(hw, slot.op, st.r[Pin(slot.d)], CompiledOperand(hw, slot, View(st).r), slot.imm))
    ensures SlotRuns(hw, key, slot, st)
  {
    hide SlotCode, AluResult, CompiledOperand, ExecAll, Wrote;
    WroteView(hw, key, st, st', slot.d,
              AluResult(hw, slot.op, st.r[Pin(slot.d)], CompiledOperand(hw, slot, View(st).r), slot.imm));
  }

  lemma SlotArith(hw: Hw, key: Block, slot: Instr, st: AState)
    requires Pinned(hw, key, st) && slot.op in {Add, Sub, Xor} && hw.ImmediateLaws()
    ensures SlotRuns(hw, key, slot, st)
  {
    hide Exec, SlotRuns, ExecAll, ImmOp, Hw.ImmediateLaws;
    var d, s := Pin(slot.d), Pin(slot.s);
    var op := if slot.op == Add then AddR else if slot.op == Sub then SubR else EorR;
    var op2 := if slot.op == Xor then AddR else EorR;
    var st1 := DoAlu(hw, op, d, d, s, st);
    ExecAppend(hw, [Alu(op, d, d, s)], ImmOp(op2, d, T0, slot.imm), st);
    ExecOne(hw, Alu(op, d, d, s), st);
    var st2 := RunImmOp(hw, op2, d, T0, slot.imm, st1);
    Finish(hw, key, slot, st, st2);
  }

  /** The rotation a left turn is compiled to. */
  lemma LeftTurn(hw: Hw, x: Word, k: bv8)
    requires hw.RotationLaws() && 0 < k < 64
    ensures hw.rol(x, hw.Zx8(k)) == hw.ror(x, hw.Zx8(64 - k))
  {
    hide Hw.Zx8;
  }

  lemma ComplementTurns(hw: Hw, x: Word, imm: bv32)
    requires hw.RotationLaws()
    ensures hw.rol(x, hw.Zx8(Turn(imm))) == hw.ror(x, hw.Zx8(Complement(imm)))
  {
    LeftTurn(hw, x, Turn(imm));
  }

  lemma RunMasked(hw: Hw, turn: bv8, mid: Op3, d: AReg, n: AReg, m: AReg, imm: bv32, st: AState) returns (st': AState)
    requires st.Valid() && hw.ImmediateLaws() && 14 < d < 31 && n < 31 && m < 31
    ensures st' == ExecAll(hw, MaskedCode(turn, Alu(mid, T0, n, m), d, imm), st)
    ensures var r1 := st.r[d := hw.ror(st.r[d], hw.Zx8(turn))][9 := hw.zx(imm)];
            var t := Value3(hw, mid, r1[n], r1[m]);
            st' == st.(r := r1[9 := t][d := hw.xor(r1[d], t)])
  {
    hide Exec, ExecAll, Imm32, Hw.ImmediateLaws;
    var st1 := DoRor(hw, d, turn, st);
    var st2 := RunImm(hw, T0, imm, st1);
    var st3 := DoAlu(hw, mid, T0, n, m, st2);
    st' := DoAlu(hw, EorR, d, d, T0, st3);
    var a, c := [RorImm(d, d, turn)], [Alu(mid, T0, n, m), Alu(EorR, d, d, T0)];
    ExecAppend(hw, a, Imm32(T0, imm), st);
    ExecAppend(hw, a + Imm32(T0, imm), c, st);
    ExecOne(hw, a[0], st);
    ExecTwo(hw, c[0], c[1], st2);
  }

  lemma Commute(hw: Hw, x: Word, y: Word)
    requires hw.BitwiseLaws()
    ensures hw.and(x, y) == hw.and(y, x) && hw.or(x, y) == hw.or(y, x)
  {
  }

  lemma SlotLogic(hw: Hw, key: Block, slot: Instr, st: AState)
    requires Pinned(hw, key, st) && slot.op in {Or, And}
    requires hw.BitwiseLaws() && hw.ImmediateLaws() && hw.RotationLaws()
    ensures SlotRuns(hw, key, slot, st)
  {
    hide Exec, ExecAll, SlotRuns, MaskedCode, Hw.BitwiseLaws, Hw.ImmediateLaws, Hw.RotationLaws;
    var d, s := Pin(slot.d), Pin(slot.s);
    var mid := if slot.op == Or then OrrR else AndR;
    var k: bv8 := if slot.op == Or then 17 else 23;
    LeftTurn(hw, st.r[d], k);
    var st' := RunMasked(hw, 64 - k, mid, d, s, T0, slot.imm, st);
    Finish(hw, key, slot, st, st');
  }

  lemma SlotAndn(hw: Hw, key: Block, slot: Instr, st: AState)
    requires Pinned(hw, key, st) && slot.op == Andn
    requires hw.BitwiseLaws() && hw.ImmediateLaws() && hw.RotationLaws()
    ensures SlotRuns(hw, key, slot, st)
  {
    hide Exec, ExecAll, SlotRuns, MaskedCode, Hw.BitwiseLaws, Hw.ImmediateLaws, Hw.RotationLaws;
    var d, s := Pin(slot.d), Pin(slot.s);
    LeftTurn(hw, st.r[d], 29);
    var st' := RunMasked(hw, 64 - 29, BicR, d, T0, s, slot.imm, st);
    Commute(hw, hw.zx(slot.imm), hw.not(CompiledOperand(hw, slot, View(st).r)));
    Finish(hw, key, slot, st, st');
  }

  lemma RunTurn(hw: Hw, k: bv8, op: Op3, d: Reg, s: Reg, st: AState) returns (st': AState)
    requires st.Valid()
    ensures st' == ExecAll(hw, [RorImm(Pin(d), Pin(d), k), Alu(op, Pin(d), Pin(d), Pin(s))], st)
    ensures var t := hw.ror(st.r[Pin(d)], hw.Zx8(k));
            Wrote(st, st', d, Value3(hw, op, t, if s == d then t else st.r[Pin(s)])) && st'.pad == st.pad
  {
    hide Exec, ExecAll, Hw.Zx8;
    var st1 := DoRor(hw, Pin(d), k, st);
    st' := DoAlu(hw, op, Pin(d), Pin(d), Pin(s), st1);
    ExecTwo(hw, RorImm(Pin(d), Pin(d), k), Alu(op, Pin(d), Pin(d), Pin(s)), st);
  }

  lemma SlotRotateLeft(hw: Hw, key: Block, slot: Instr, st: AState)
    requires Pinned(hw, key, st) && slot.op in {Rolx, Rola} && hw.RotationLaws()
    ensures SlotRuns(hw, key, slot, st)
  {
    hide Exec, ExecAll, SlotRuns, Turn, Complement, Hw.RotationLaws, Hw.Zx8, Wrote;
    ComplementTurns(hw, st.r[Pin(slot.d)], slot.imm);
    var st' := RunTurn(hw, Complement(slot.imm), if slot.op == Rolx then EorR else AddR, slot.d, slot.s, st);
    Finish(hw, key, slot, st, st');
  }

  lemma SlotRotateRight(hw: Hw, key: Block, slot: Instr, st: AState)
    requires Pinned(hw, key, st) && slot.op in {Rorx, Rora}
    ensures SlotRuns(hw, key, slot, st)
  {
    hide Exec, ExecAll, SlotRuns, Turn, Hw.Zx8, Wrote;
    var st' := RunTurn(hw, Turn(slot.imm), if slot.op == Rorx then EorR else AddR, slot.d, slot.s, st);
    Finish(hw, key, slot, st, st');
  }

  lemma SlotVrol(hw: Hw, key: Block, slot: Instr, st: AState)
    requires Pinned(hw, key, st) && slot.op == Vrol && hw.RotationLaws() && hw.ImmediateLaws()
    ensures SlotRuns(hw, key, slot, st)
  {
    hide Exec, ExecAll, SlotRuns, ImmOp, Hw.ImmediateLaws;
    var d, s := Pin(slot.d), Pin(slot.s);
    var st1 := DoAlu(hw, SubR, T0, 31, s, st);
    var st2 := DoAlu(hw, RorR, d, d, T0, st1);
    ExecTwo(hw, Alu(SubR, T0, 31, s), Alu(RorR, d, d, T0), st);
    ExecAppend(hw, [Alu(SubR, T0, 31, s), Alu(RorR, d, d, T0)], ImmOp(EorR, d, T1, slot.imm), st);
    var st3 := RunImmOp(hw, EorR, d, T1, slot.imm, st2);
    Finish(hw, key, slot, st, st3);
  }

  lemma SlotVror(hw: Hw, key: Block, slot: Instr, st: AState)
    requires Pinned(hw, key, st) && slot.op == Vror && hw.ImmediateLaws()
    ensures SlotRuns(hw, key, slot, st)
  {
    hide Exec, ExecAll, SlotRuns, ImmOp, Hw.ImmediateLaws;
    var d, s := Pin(slot.d), Pin(slot.s);
    var st1 := DoAlu(hw, RorR, d, d, s, st);
    ExecOne(hw, Alu(RorR, d, d, s), st);
    ExecAppend(hw, [Alu(RorR, d, d, s)], ImmOp(AddR, d, T1, slot.imm), st);
    var st2 := RunImmOp(hw, AddR, d, T1, slot.imm, st1);
    Finish(hw, key, slot, st, st2);
  }

  lemma SlotMultiply(hw: Hw, key: Block, slot: Instr, st: AState)
    requires Pinned(hw, key, st) && slot.op in {Mullo, Mulhi} && hw.ImmediateLaws()
    ensures SlotRuns(hw, key, slot, st)
  {
    hide Exec, ExecAll, SlotRuns, ImmOp, Hw.ImmediateLaws;
    var d, s, op := Pin(slot.d), Pin(slot.s), if slot.op == Mullo then MulR else UmulhR;
    var st1 := DoOrrOne(hw, T0, s, st);
    var st2 := DoAlu(hw, op, d, d, T0, st1);
    ExecTwo(hw, OrrOne(T0, s), Alu(op, d, d, T0), st);
    if slot.op == Mullo {
      Finish(hw, key, slot, st, st2);
    } else {
      ExecAppend(hw, [OrrOne(T0, s), Alu(op, d, d, T0)], ImmOp(EorR, d, T1, slot.imm), st);
      var st3 := RunImmOp(hw, EorR, d, T1, slot.imm, st2);
      Finish(hw, key, slot, st, st3);
    }
  }

  // ----- slots that touch the pad -----

  /** `st1` differs from `st` in scratch registers only and addresses offset `o`. */
  ghost predicate Addressed(hw: Hw, st: AState, st1: AState, o: nat) {
    && st.Valid() && st1.Valid()
    && st1 == st.(r := st1.r)
    && InPad(hw, st1, PAD, T0, 8) && hw.value(st1.r[9]) == o
    && (forall j: AReg :: j < 31 && j !in {9, 10, 14} ==> st1.r[j] == st.r[j])
  }

  lemma AtAddress(hw: Hw, key: Block, src: AReg, k: bv32, tmp: AReg, st: AState) returns (st': AState)
    requires Pinned(hw, key, st) && hw.ImmediateLaws() && hw.MaskLaws()
    requires src < 31 && tmp in {10, 14} && src != tmp
    ensures st' == ExecAll(hw, Addr(src, k, MASK, tmp), st)
    ensures Addressed(hw, st, st', AddrOf(hw, st.r[src], k))
  {
    hide ExecAll, Hw.ImmediateLaws;
    st' := RunAddr(hw, src, k, MASK, tmp, st);
  }

  lemma AfterLoad(hw: Hw, key: Block, add: bool, d: Reg, o: nat, st: AState, st1: AState) returns (st2: AState)
    requires Pinned(hw, key, st) && Addressed(hw, st, st1, o)
    ensures st2 == ExecAll(hw, LoadCode(if add then AddR else EorR, Pin(d)), st1)
    ensures var x, y := View(st).r[d], ReadAt(View(st), o);
            && Pinned(hw, key, st2) && Frame(st, st2)
            && View(st2) == SetReg(View(st), d, if add then hw.add(x, y) else hw.xor(x, y))
  {
    hide Exec, ExecAll;
    var op := if add then AddR else EorR;
    var a := DoLdr(hw, T1, PAD, T0, st1);
    st2 := DoAlu(hw, op, Pin(d), Pin(d), T1, a);
    ExecTwo(hw, Ldr(T1, PAD, T0), Alu(op, Pin(d), Pin(d), T1), st1);
    WroteView(hw, key, st, st2, d, st2.r[Pin(d)]);
  }

  lemma RunUpdate(hw: Hw, op: Op3, x: Reg, o: nat, st: AState, st1: AState) returns (st2: AState)
    requires Addressed(hw, st, st1, o)
    ensures st2 == ExecAll(hw, UpdateCode(op, Pin(x)), st1)
    ensures var v := Value3(hw, op, st.pad[o / 8], st.r[Pin(x)]);
            st2 == st1.(r := st1.r[10 := v], pad := st.pad[o / 8 := v])
  {
    hide Exec, ExecAll;
    var a := DoLdr(hw, T1, PAD, T0, st1);
    var b := DoAlu(hw, op, T1, T1, Pin(x), a);
    st2 := DoStr(hw, T1, PAD, T0, b);
    ExecThree(hw, Ldr(T1, PAD, T0), Alu(op, T1, T1, Pin(x)), Str(T1, PAD, T0), st1);
  }

  /** The new word is in x10 and in the pad. */
  lemma AfterUpdate(hw: Hw, key: Block, op: Op3, x: Reg, o: nat, st: AState, st1: AState) returns (st2: AState)
    requires Pinned(hw, key, st) && Addressed(hw, st, st1, o)
    ensures st2 == ExecAll(hw, UpdateCode(op, Pin(x)), st1)
    ensures var v := Value3(hw, op, ReadAt(View(st), o), View(st).r[x]);
            && Pinned(hw, key, st2) && Frame(st, st2)
            && st2.r[10] == v && View(st2) == WriteAt(View(st), o, v)
  {
    hide ExecAll;
    st2 := RunUpdate(hw, op, x, o, st, st1);
    WroteView(hw, key, st, st2, x, st.r[Pin(x)]);
    assert SetReg(View(st), x, st.r[Pin(x)]).r == View(st).r;
  }

  lemma CompiledMemory(hw: Hw, key: Block, slot: Instr, vm: Vm)
    requires vm.Valid()
    ensures var d, s, k := slot.d, slot.s, AddrKey(slot.op, slot.imm);
            && (slot.op in {Load, Loadb} ==>
                  CompiledStep(hw, key, slot, vm) == LoadStep(hw, vm, d, AddrOf(hw, vm.r[s], k)))
            && (slot.op in {Store, Storeb} ==>
                  CompiledStep(hw, key, slot, vm) == StoreStep(hw, vm, s, AddrOf(hw, vm.r[d], k)))
            && (slot.op == Rmw ==> CompiledStep(hw, key, slot, vm) == RmwStep(hw, vm, d, AddrOf(hw, vm.r[s], k)))
            && (slot.op == Rmwb ==> CompiledStep(hw, key, slot, vm) == RmwbStep(hw, vm, d, AddrOf(hw, vm.r[s], k)))
            && (slot.op == Aesr ==> CompiledStep(hw, key, slot, vm) == AesStep(hw, key, vm, d, LineOf(hw, vm.r[s], k)))
  {
    hide LoadStep, StoreStep, RmwStep, RmwbStep, AesStep, AddrOf, LineOf, AddrKey;
  }

  lemma MemoryCode(slot: Instr)
    ensures var d, s, k := Pin(slot.d), Pin(slot.s), AddrKey(slot.op, slot.imm);
            && (slot.op in {Load, Loadb} ==> SlotCode(slot) == Addr(s, k, MASK, T1) + LoadCode(EorR, d))
            && (slot.op in {Store, Storeb} ==> SlotCode(slot) == Addr(d, k, MASK, T1) + UpdateCode(AddR, s))
            && (slot.op == Rmw ==>
                  SlotCode(slot) ==
                  Addr(s, k, MASK, T1) + UpdateCode(AddR, d) + Addr(T1, C2, MASK, T2) + LoadCode(EorR, d))
            && (slot.op == Rmwb ==>
                  SlotCode(slot) ==
                  Addr(s, k, MASK, T1) + UpdateCode(EorR, d) + Addr(T1, C1, MASK, T2) + LoadCode(AddR, d))
            && (slot.op == Aesr ==> SlotCode(slot) == Addr(s, k, LINE, T1) + LineCode(d))
  {
    hide Addr, LoadCode, UpdateCode, LineCode, AddrKey;
  }

  lemma SlotLoad(hw: Hw, key: Block, slot: Instr, st: AState)
    requires Pinned(hw, key, st) && slot.op in {Load, Loadb} && hw.ImmediateLaws() && hw.MaskLaws()
    ensures SlotRuns(hw, key, slot, st)
  {
    hide Hw.ImmediateLaws, Hw.MaskLaws, Addr, AddrOf, SlotCode, CompiledStep, SlotRuns, ExecAll, LoadCode, Addressed,
      AddrKey;
    MemoryCode(slot);
    var d, s, k := Pin(slot.d), Pin(slot.s), AddrKey(slot.op, slot.imm);
    var c1, c2 := Addr(s, k, MASK, T1), LoadCode(EorR, d);
    var st1 := AtAddress(hw, key, s, k, T1, st);
    var st2 := AfterLoad(hw, key, false, slot.d, AddrOf(hw, st.r[s], k), st, st1);
    ExecAppend(hw, c1, c2, st);
    CompiledMemory(hw, key, slot, View(st));
    Conclude(hw, key, slot, c1 + c2, st, st2);
  }

  lemma SlotStore(hw: Hw, key: Block, slot: Instr, st: AState)
    requires Pinned(hw, key, st) && slot.op in {Store, Storeb} && hw.ImmediateLaws() && hw.MaskLaws()
    ensures SlotRuns(hw, key, slot, st)
  {
    hide Hw.ImmediateLaws, Hw.MaskLaws, Addr, AddrOf, SlotCode, CompiledStep, SlotRuns, ExecAll, UpdateCode, Addressed,
      AddrKey;
    MemoryCode(slot);
    var d, s, k := Pin(slot.d), Pin(slot.s), AddrKey(slot.op, slot.imm);
    var c1, c2 := Addr(d, k, MASK, T1), UpdateCode(AddR, s);
    var st1 := AtAddress(hw, key, d, k, T1, st);
    var st2 := AfterUpdate(hw, key, AddR, slot.s, AddrOf(hw, st.r[d], k), st, st1);
    ExecAppend(hw, c1, c2, st);
    CompiledMemory(hw, key, slot, View(st));
    Conclude(hw, key, slot, c1 + c2, st, st2);
  }

  /** Update at the first address, then combine with the word at the second. */
  lemma RunUpdateLoad(hw: Hw, key: Block, op: Op3, d: Reg, s: Reg, k: bv32, k2: bv32, add: bool, st: AState)
      returns (st': AState)
    requires Pinned(hw, key, st) && hw.ImmediateLaws() && hw.MaskLaws()
    ensures st' == ExecAll(hw, Addr(Pin(s), k, MASK, T1) + UpdateCode(op, Pin(d)) + Addr(T1, k2, MASK, T2)
                               + LoadCode(if add then AddR else EorR, Pin(d)), st)
    ensures var vm := View(st);
            var o := AddrOf(hw, vm.r[s], k);
            var v := Value3(hw, op, ReadAt(vm, o), vm.r[d]);
            var vm1 := WriteAt(vm, o, v);
            var x, y := vm.r[d], ReadAt(vm1, AddrOf(hw, v, k2));
            && Pinned(hw, key, st') && Frame(st, st')
            && View(st') == SetReg(vm1, d, if add then hw.add(x, y) else hw.xor(x, y))
  {
    hide ExecAll, Hw.ImmediateLaws, Hw.MaskLaws, Addr, AddrOf, Addressed, UpdateCode, LoadCode, Value3;
    var c1, c2, c3 := Addr(Pin(s), k, MASK, T1), UpdateCode(op, Pin(d)), Addr(T1, k2, MASK, T2);
    var c4 := LoadCode(if add then AddR else EorR, Pin(d));
    var st1 := AtAddress(hw, key, Pin(s), k, T1, st);
    var st2 := AfterUpdate(hw, key, op, d, AddrOf(hw, st.r[Pin(s)], k), st, st1);
    var st3 := AtAddress(hw, key, T1, k2, T2, st2);
    st' := AfterLoad(hw, key, add, d, AddrOf(hw, st2.r[10], k2), st2, st3);
    ExecAppend(hw, c1, c2, st);
    ExecAppend(hw, c1 + c2, c3, st);
    ExecAppend(hw, c1 + c2 + c3, c4, st);
  }

  lemma SlotRmw(hw: Hw, key: Block, slot: Instr, st: AState)
    requires Pinned(hw, key, st) && slot.op in {Rmw, Rmwb} && hw.ImmediateLaws() && hw.MaskLaws()
    ensures SlotRuns(hw, key, slot, st)
  {
    hide Hw.ImmediateLaws, Hw.MaskLaws, Addr, AddrOf, SlotCode, CompiledStep, SlotRuns, ExecAll, UpdateCode, LoadCode,
      AddrKey;
    MemoryCode(slot);
    var d, s, k := Pin(slot.d), Pin(slot.s), AddrKey(slot.op, slot.imm);
    var op, add, k2 := if slot.op == Rmw then AddR else EorR, slot.op == Rmwb, if slot.op == Rmw then C2 else C1;
    var code := Addr(s, k, MASK, T1) + UpdateCode(op, d) + Addr(T1, k2, MASK, T2)
                + LoadCode(if add then AddR else EorR, d);
    var st' := RunUpdateLoad(hw, key, op, slot.d, slot.s, k, k2, add, st);
    CompiledMemory(hw, key, slot, View(st));
    Conclude(hw, key, slot, code, st, st');
  }

  /** AESE with a zero key, AESMC and the exclusive or with the round key are one round. */
  lemma RunRound(hw: Hw, key: Block, st: AState) returns (st': AState)
    requires st.Valid() && st.v[0] == key && st.v[2] == hw.ZeroBlock() && hw.AesLaws()
    ensures st' == ExecAll(hw, [Aese(1, 2), Aesmc(1, 1), Veor(1, 1, 0)], st)
         == st.(v := st.v[1 := AesEnc(hw, st.v[1], key)])
  {
    ExecThree(hw, Aese(1, 2), Aesmc(1, 1), Veor(1, 1, 0), st);
    st' := ExecAll(hw, [Aese(1, 2), Aesmc(1, 1), Veor(1, 1, 0)], st);
    assert st'.v == st.v[1 := AesEnc(hw, st.v[1], key)];
  }

  lemma RunLine(hw: Hw, key: Block, o: nat, st: AState, st1: AState) returns (st2: AState)
    requires Pinned(hw, key, st) && Addressed(hw, st, st1, o) && o % 16 == 0 && hw.AesLaws()
    ensures st2 == ExecAll(hw, [LdrQ(1, PAD, T0)] + [Aese(1, 2), Aesmc(1, 1), Veor(1, 1, 0)] + [StrQ(1, PAD, T0)], st1)
    ensures o / 8 + 1 < 8192
    ensures var w := o / 8;
            var b := AesEnc(hw, Block(st.pad[w], st.pad[w + 1]), key);
            st2 == st1.(v := st1.v[1 := b], pad := st1.pad[w := b.lo][w + 1 := b.hi])
  {
    hide Exec, ExecAll, AesEnc, Hw.AesLaws;
    var a, mid, c := [LdrQ(1, PAD, T0)], [Aese(1, 2), Aesmc(1, 1), Veor(1, 1, 0)], [StrQ(1, PAD, T0)];
    var s1 := DoLdrQ(hw, 1, PAD, T0, st1);
    var s2 := RunRound(hw, key, s1);
    st2 := DoStrQ(hw, 1, PAD, T0, s2);
    ExecOne(hw, a[0], st1);
    ExecOne(hw, c[0], s2);
    ExecAppend(hw, a, mid, st1);
    ExecAppend(hw, a + mid, c, st1);
  }

  lemma AfterLine(hw: Hw, key: Block, d: Reg, o: nat, st: AState, st1: AState) returns (st2: AState)
    requires Pinned(hw, key, st) && Addressed(hw, st, st1, o) && o % 16 == 0 && hw.AesLaws()
    ensures st2 == ExecAll(hw, LineCode(Pin(d)), st1)
    ensures Pinned(hw, key, st2) && Frame(st, st2) && View(st2) == AesStep(hw, key, View(st), d, o)
  {
    hide Exec, ExecAll, AesEnc, Hw.AesLaws;
    var a := RunLine(hw, key, o, st, st1);
    var b := DoUmov(hw, T1, 1, a);
    st2 := DoAlu(hw, EorR, Pin(d), Pin(d), T1, b);
    ExecTwo(hw, UmovLo(T1, 1), Alu(EorR, Pin(d), Pin(d), T1), a);
    ExecAppend(hw, [LdrQ(1, PAD, T0)] + [Aese(1, 2), Aesmc(1, 1), Veor(1, 1, 0)] + [StrQ(1, PAD, T0)],
               [UmovLo(T1, 1), Alu(EorR, Pin(d), Pin(d), T1)], st1);
    WroteView(hw, key, st, st2, d, hw.xor(st.r[Pin(d)], a.v[1].lo));
  }

  lemma AtLine(hw: Hw, key: Block, src: AReg, k: bv32, st: AState) returns (st': AState)
    requires Pinned(hw, key, st) && hw.ImmediateLaws() && hw.MaskLaws() && 14 < src < 31
    ensures st' == ExecAll(hw, Addr(src, k, LINE, T1), st)
    ensures Addressed(hw, st, st', LineOf(hw, st.r[src], k)) && LineOf(hw, st.r[src], k) % 16 == 0
  {
    hide ExecAll, Hw.ImmediateLaws;
    st' := RunAddr(hw, src, k, LINE, T1, st);
  }

  lemma SlotAes(hw: Hw, key: Block, slot: Instr, st: AState)
    requires Pinned(hw, key, st) && slot.op == Aesr && hw.ImmediateLaws() && hw.MaskLaws() && hw.AesLaws()
    ensures SlotRuns(hw, key, slot, st)
  {
    hide Hw.ImmediateLaws, Hw.MaskLaws, Hw.AesLaws, Addr, LineOf, SlotCode, LineCode, CompiledStep, SlotRuns, ExecAll,
      AesStep, Addressed, AddrKey;
    MemoryCode(slot);
    var s, k := Pin(slot.s), AddrKey(slot.op, slot.imm);
    var c1, c2 := Addr(s, k, LINE, T1), LineCode(Pin(slot.d));
    var st1 := AtLine(hw, key, s, k, st);
    var st2 := AfterLine(hw, key, slot.d, LineOf(hw, st.r[s], k), st, st1);
    ExecAppend(hw, c1, c2, st);
    CompiledMemory(hw, key, slot, View(st));
    Conclude(hw, key, slot, c1 + c2, st, st2);
  }

  /** Running the code of any slot performs that slot on the pinned registers and the pad,
      and keeps everything else a slot may not touch. */
  lemma SlotCorrect(hw: Hw, key: Block, slot: Instr, st: AState)
    requires Pinned(hw, key, st) && hw.Lawful()
    ensures SlotRuns(hw, key, slot, st)
  {
    hide SlotRuns, Hw.BitwiseLaws, Hw.MaskLaws, Hw.AesLaws, Hw.RotationLaws, Hw.ImmediateLaws, Hw.CounterLaws;
    match slot.op {
      case Add | Sub | Xor => SlotArith(hw, key, slot, st);
      case Or | And => SlotLogic(hw, key, slot, st);
      case Andn => SlotAndn(hw, key, slot, st);
      case Rolx | Rola => SlotRotateLeft(hw, key, slot, st);
      case Rorx | Rora => SlotRotateRight(hw, key, slot, st);
      case Vrol => SlotVrol(hw, key, slot, st);
      case Vror => SlotVror(hw, key, slot, st);
      case Load | Loadb => SlotLoad(hw, key, slot, st);
      case Store | Storeb => SlotStore(hw, key, slot, st);
      case Rmw | Rmwb => SlotRmw(hw, key, slot, st);
      case Mullo | Mulhi => SlotMultiply(hw, key, slot, st);
      case Aesr => SlotAes(hw, key, slot, st);
    }
  }
}
