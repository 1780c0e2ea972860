/** The whole A64 program: its layout, and what its straight-line parts do. */
module A64Program {
  import opened Words
  import opened Hardware
  import opened Isochron
  import opened A64
  import opened A64Compile

  /** Pairs (19, 20), (21, 22), ..., (27, 28). */
  function PairAt(i: nat): AReg
    requires i < 5
  {
    19 + 2 * i
  }

  function SaveCode(n: nat): seq<AInstr>
    requires n <= 5
  {
    if n == 0 then [] else SaveCode(n - 1) + [StpPre(PairAt(n - 1), PairAt(n - 1) + 1)]
  }

  function RestoreCode(n: nat): seq<AInstr>
    requires n <= 5
  {
    if n == 0 then [] else [LdpPost(PairAt(n - 1), PairAt(n - 1) + 1)] + RestoreCode(n - 1)
  }

  function Imm64(d: AReg, v: bv64): seq<AInstr> {
    [Movz(d, Piece(v, 0)), Movk(d, Piece(v, 16), 1)] + [Movk(d, Piece(v, 32), 2), Movk(d, Piece(v, 48), 3)]
  }

  function SetupCode(): seq<AInstr> {
    [Alu(OrrR, PAD, 31, 0), LdrQAt(0, 2), MoviZero(2)]
    + Imm64(MULTIPLIER, MULT) + Imm32(MASK, SCRATCH_MASK) + Imm32(LINE, LINE_MASK)
  }

  function InitOne(i: Reg): seq<AInstr> {
    Imm32(T0, ODD[i])
    + if i == 0 then [Alu(MulR, Pin(i), 1, T0)] else [Alu(MulR, Pin(i), 1, T0), AddImm(Pin(i), Pin(i), INDEX[i])]
  }

  function InitCode(n: nat): seq<AInstr>
    requires n <= 8
  {
    if n == 0 then [] else InitCode(n - 1) + InitOne(n - 1)
  }

  function Prologue(): seq<AInstr> { SaveCode(5) + SetupCode() + InitCode(8) + [Movz(COUNTER, 0)] }

  function Body(prog: seq<Instr>): seq<AInstr> {
    if prog == [] then [] else Body(prog[..|prog| - 1]) + SlotCode(prog[|prog| - 1])
  }

  /** Mixes the counter in, advances it and compares; the conditional branch follows. */
  function LoopEnd(): seq<AInstr> {
    [Alu(EorR, Pin(0), Pin(0), COUNTER), AddImm(COUNTER, COUNTER, 1), CmpImm(COUNTER, 1024)]
  }

  function FoldCode(n: nat): seq<AInstr>
    requires 1 <= n <= 8
  {
    if n == 1 then [Alu(OrrR, 0, 31, Pin(0))] else FoldCode(n - 1) + [Alu(EorR, 0, 0, Pin(n - 1))]
  }

  // ----- saving and restoring -----

  function SavedWords(r: seq<Word>, n: nat): seq<Word>
    requires |r| == 31 && n <= 5
  {
    if n == 0 then [] else SavedWords(r, n - 1) + [r[PairAt(n - 1) + 1], r[PairAt(n - 1)]]
  }

  lemma {:induction false} RunSave(hw: Hw, n: nat, st: AState) returns (st': AState)
    requires st.Valid() && n <= 5
    ensures st' == ExecAll(hw, SaveCode(n), st) == st.(stack := st.stack + SavedWords(st.r, n))
  {
    hide Exec;
    if n == 0 {
      st' := st;
      assert st.stack + [] == st.stack;
    } else {
      hide ExecAll;
      var t := PairAt(n - 1);
      var st1 := RunSave(hw, n - 1, st);
      st' := DoStp(hw, t, st1);
      ExecAppend(hw, SaveCode(n - 1), [StpPre(t, t + 1)], st);
      ExecOne(hw, StpPre(t, t + 1), st1);
      Onto(st.stack, SavedWords(st.r, n - 1), [st.r[t + 1], st.r[t]]);
    }
  }

  lemma Onto<T>(a: seq<T>, b: seq<T>, c: seq<T>)
    ensures (a + b) + c == a + (b + c)
  {
  }

  lemma DoStp(hw: Hw, t: AReg, st: AState) returns (st': AState)
    requires st.Valid() && t < 30
    ensures st' == Exec(hw, StpPre(t, t + 1), st) == st.(stack := st.stack + [st.r[t + 1], st.r[t]])
  {
    st' := Exec(hw, StpPre(t, t + 1), st);
  }

  lemma DoLdp(hw: Hw, t: AReg, base: seq<Word>, x: Word, y: Word, st: AState) returns (st': AState)
    requires st.Valid() && t < 30 && st.stack == base + [y, x]
    ensures st' == Exec(hw, LdpPost(t, t + 1), st) == st.(r := st.r[t := x][t + 1 := y], stack := base)
  {
    st' := Exec(hw, LdpPost(t, t + 1), st);
    assert st.stack[..|st.stack| - 2] == base;
  }

  /** Popping the pairs gives back the first 2 n saved registers and the stack below them. */
  lemma {:induction false} RunRestore(hw: Hw, n: nat, base: seq<Word>, r0: seq<Word>, st: AState) returns (st': AState)
    requires st.Valid() && n <= 5 && |r0| == 31 && st.stack == base + SavedWords(r0, n)
    ensures st' == ExecAll(hw, RestoreCode(n), st) && st'.Valid()
    ensures st' == st.(r := st'.r, stack := base)
    ensures forall j: AReg :: 19 <= j < 19 + 2 * n ==> st'.r[j] == r0[j]
    ensures forall j: AReg :: j < 31 && !(19 <= j < 19 + 2 * n) ==> st'.r[j] == st.r[j]
  {
    hide Exec;
    if n == 0 {
      st' := st;
    } else {
      hide ExecAll;
      var t := PairAt(n - 1);
      Onto(base, SavedWords(r0, n - 1), [r0[t + 1], r0[t]]);
      var st1 := DoLdp(hw, t, base + SavedWords(r0, n - 1), r0[t], r0[t + 1], st);
      st' := RunRestore(hw, n - 1, base, r0, st1);
      ExecAppend(hw, [LdpPost(t, t + 1)], RestoreCode(n - 1), st);
      ExecOne(hw, LdpPost(t, t + 1), st);
    }
  }

  // ----- the prologue -----

  lemma RunImm64(hw: Hw, d: AReg, v: bv64, st: AState) returns (st': AState)
    requires st.Valid() && d < 31 && hw.ImmediateLaws()
    ensures st' == ExecAll(hw, Imm64(d, v), st) == st.(r := st.r[d := hw.imm64(v)])
  {
    hide Exec, ExecAll, Piece;
    var a := DoMovz(hw, d, Piece(v, 0), st);
    var b := DoMovk(hw, d, Piece(v, 16), 1, a);
    var c := DoMovk(hw, d, Piece(v, 32), 2, b);
    st' := DoMovk(hw, d, Piece(v, 48), 3, c);
    var x, y := [Movz(d, Piece(v, 0)), Movk(d, Piece(v, 16), 1)], [Movk(d, Piece(v, 32), 2), Movk(d, Piece(v, 48), 3)];
    ExecTwo(hw, x[0], x[1], st);
    ExecTwo(hw, y[0], y[1], b);
    ExecAppend(hw, x, y, st);
    assert hw.movk(hw.movk(hw.movk(hw.movz(Piece(v, 0)), Piece(v, 16), 1), Piece(v, 32), 2), Piece(v, 48), 3) ==
           hw.imm64(v);
  }

  lemma RunBases(hw: Hw, st: AState) returns (st': AState)
    requires st.Valid() && st.r[0] == st.padBase && st.r[2] == st.keyBase && hw.BitwiseLaws()
    ensures st' == ExecAll(hw, [Alu(OrrR, PAD, 31, 0), LdrQAt(0, 2), MoviZero(2)], st)
         == st.(r := st.r[27 := st.padBase], v := st.v[0 := st.key][2 := hw.ZeroBlock()])
  {
    ExecThree(hw, Alu(OrrR, PAD, 31, 0), LdrQAt(0, 2), MoviZero(2), st);
    st' := ExecAll(hw, [Alu(OrrR, PAD, 31, 0), LdrQAt(0, 2), MoviZero(2)], st);
    assert hw.or(hw.Zero(), st.r[0]) == st.r[0];
  }

  lemma RunSetup(hw: Hw, st: AState) returns (st': AState)
    requires st.Valid() && st.r[0] == st.padBase && st.r[2] == st.keyBase && hw.BitwiseLaws() && hw.ImmediateLaws()
    ensures st' == ExecAll(hw, SetupCode(), st)
    ensures st' == st.(r := st.r[27 := st.padBase][28 := hw.imm64(MULT)]
                                [11 := hw.zx(SCRATCH_MASK)][13 := hw.zx(LINE_MASK)],
                       v := st.v[0 := st.key][2 := hw.ZeroBlock()])
  {
    hide ExecAll, Exec, Hw.BitwiseLaws, Hw.ImmediateLaws, Imm64, Imm32;
    var a := RunBases(hw, st);
    var b := RunImm64(hw, MULTIPLIER, MULT, a);
    var c := RunImm(hw, MASK, SCRATCH_MASK, b);
    st' := RunImm(hw, LINE, LINE_MASK, c);
    var w := [Alu(OrrR, PAD, 31, 0), LdrQAt(0, 2), MoviZero(2)];
    var x, y, z := Imm64(MULTIPLIER, MULT), Imm32(MASK, SCRATCH_MASK), Imm32(LINE, LINE_MASK);
    ExecAppend(hw, w, x, st);
    ExecAppend(hw, w + x, y, st);
    ExecAppend(hw, w + x + y, z, st);
  }

  lemma DoAddImm(hw: Hw, d: AReg, imm: bv32, st: AState) returns (st': AState)
    requires st.Valid() && d < 31
    ensures st' == Exec(hw, AddImm(d, d, imm), st) == st.(r := st.r[d := hw.add(st.r[d], hw.zx(imm))])
  {
    st' := Exec(hw, AddImm(d, d, imm), st);
  }

  lemma AddZero(hw: Hw, x: Word)
    requires hw.BitwiseLaws()
    ensures hw.add(x, hw.zx(0)) == x && hw.xor(hw.Zero(), x) == x && hw.or(hw.Zero(), x) == x
  {
    assert hw.Zero() == hw.zx(0);
  }

  lemma RunInitOne(hw: Hw, i: Reg, st: AState) returns (st': AState)
    requires st.Valid() && hw.ImmediateLaws() && hw.BitwiseLaws()
    ensures st' == ExecAll(hw, InitOne(i), st)
    ensures st' == st.(r := st.r[9 := hw.zx(ODD[i])][Pin(i) := InitialReg(hw, st.r[1], i)])
  {
    hide Exec, ExecAll, Imm32, Hw.ImmediateLaws, Hw.BitwiseLaws;
    var a := RunImm(hw, T0, ODD[i], st);
    var b := DoAlu(hw, MulR, Pin(i), 1, T0, a);
    var mul := Alu(MulR, Pin(i), 1, T0);
    if i == 0 {
      st' := b;
      ExecOne(hw, mul, a);
      ExecAppend(hw, Imm32(T0, ODD[i]), [mul], st);
      AddZero(hw, b.r[Pin(i)]);
    } else {
      st' := DoAddImm(hw, Pin(i), INDEX[i], b);
      ExecTwo(hw, mul, AddImm(Pin(i), Pin(i), INDEX[i]), a);
      ExecAppend(hw, Imm32(T0, ODD[i]), [mul, AddImm(Pin(i), Pin(i), INDEX[i])], st);
    }
  }

  /** After n initialisers: those registers hold their values and only x9 moved besides. */
  lemma {:induction false} RunInit(hw: Hw, n: nat, st: AState) returns (st': AState)
    requires st.Valid() && hw.ImmediateLaws() && hw.BitwiseLaws() && n <= 8
    ensures st' == ExecAll(hw, InitCode(n), st) && st'.Valid()
    ensures st' == st.(r := st'.r)
    ensures forall i: Reg :: i < n ==> st'.r[Pin(i)] == InitialReg(hw, st.r[1], i)
    ensures forall j: AReg :: j < 31 && j != 9 && !(19 <= j < 19 + n) ==> st'.r[j] == st.r[j]
  {
    hide Exec, Hw.ImmediateLaws, Hw.BitwiseLaws, InitOne, InitialReg;
    if n == 0 {
      st' := st;
    } else {
      var st1 := RunInit(hw, n - 1, st);
      st' := RunInitOne(hw, n - 1, st1);
      ExecAppend(hw, InitCode(n - 1), InitOne(n - 1), st);
    }
  }

  /** The entry conditions of the generated function: pad, seed and key in their registers. */
  ghost predicate Entry(hw: Hw, key: Block, st: AState) {
    && st.Valid() && st.ok
    && st.r[0] == st.padBase && st.r[2] == st.keyBase && st.key == key
  }

  /** The stack holds the caller's registers on top of what it held on entry; the frame
      pointer, the return address and the platform register are the caller's. */
  ghost predicate Saved(st0: AState, st: AState) {
    && st0.Valid() && st.Valid()
    && st.stack == st0.stack + SavedWords(st0.r, 5)
    && st.padBase == st0.padBase && st.keyBase == st0.keyBase && st.key == st0.key
    && st.r[18] == st0.r[18] && st.r[29] == st0.r[29] && st.r[30] == st0.r[30]
  }

  function Start(hw: Hw, st0: AState): (vm: Vm)
    requires st0.Valid()
    ensures vm.Valid()
  {
    Vm(InitialRegs(hw, st0.r[1]), st0.pad)
  }

  /** The machine at the top of the loop after n iterations. */
  ghost predicate AtTop(hw: Hw, key: Block, prog: seq<Instr>, st0: AState, st: AState, n: nat) {
    && Saved(st0, st) && Pinned(hw, key, st)
    && st.r[12] == hw.Count(n)
    && View(st) == RunLoops(Compiled, hw, key, prog, Start(hw, st0), n)
  }

  lemma InitialView(hw: Hw, st0: AState, st: AState)
    requires st0.Valid() && st.Valid() && st.pad == st0.pad
    requires forall i: Reg :: st.r[Pin(i)] == InitialReg(hw, st0.r[1], i)
    ensures View(st) == Start(hw, st0)
  {
    forall i: Reg ensures View(st).r[i] == Start(hw, st0).r[i] {
      assert View(st).r[i] == st.r[Pin(i)];
    }
    assert View(st).r == Start(hw, st0).r;
  }

  lemma RunClear(hw: Hw, st: AState) returns (st': AState)
    requires st.Valid() && hw.ImmediateLaws()
    ensures st' == ExecAll(hw, [Movz(COUNTER, 0)], st) == st.(r := st.r[12 := hw.Zero()])
  {
    hide Exec;
    st' := DoMovz(hw, COUNTER, 0, st);
    ExecOne(hw, Movz(COUNTER, 0), st);
  }

  /** The prologue leads to the top of the loop with nothing iterated. */
  lemma RunPrologue(hw: Hw, key: Block, prog: seq<Instr>, st0: AState) returns (st: AState)
    requires Entry(hw, key, st0) && hw.ImmediateLaws() && hw.BitwiseLaws()
    ensures st == ExecAll(hw, Prologue(), st0)
    ensures AtTop(hw, key, prog, st0, st, 0)
  {
    hide ExecAll, Hw.ImmediateLaws, Hw.BitwiseLaws, SaveCode, SetupCode, InitCode, InitialReg, SavedWords;
    var a := RunSave(hw, 5, st0);
    var b := RunSetup(hw, a);
    var c := RunInit(hw, 8, b);
    st := RunClear(hw, c);
    ExecAppend(hw, SaveCode(5), SetupCode(), st0);
    ExecAppend(hw, SaveCode(5) + SetupCode(), InitCode(8), st0);
    ExecAppend(hw, SaveCode(5) + SetupCode() + InitCode(8), [Movz(COUNTER, 0)], st0);
    InitialView(hw, st0, st);
  }

  // ----- the loop -----

  lemma {:induction false} RunBody(hw: Hw, key: Block, prog: seq<Instr>, st: AState)
    requires Pinned(hw, key, st) && hw.Lawful()
    ensures var st' := ExecAll(hw, Body(prog), st);
            && Pinned(hw, key, st') && Frame(st, st')
            && View(st') == RunSlots(Compiled, hw, key, prog, View(st))
  {
    hide Exec, Hw.Lawful, SlotCode, CompiledStep;
    if prog != [] {
      var n := |prog| - 1;
      RunBody(hw, key, prog[..n], st);
      var st1 := ExecAll(hw, Body(prog[..n]), st);
      SlotCorrect(hw, key, prog[n], st1);
      ExecAppend(hw, Body(prog[..n]), SlotCode(prog[n]), st);
    }
  }

  lemma RunLoopEnd(hw: Hw, st: AState) returns (st': AState)
    requires st.Valid()
    ensures st' == ExecAll(hw, LoopEnd(), st)
    ensures var next := hw.add(st.r[12], hw.zx(1));
            st' == st.(r := st.r[19 := hw.xor(st.r[19], st.r[12])][12 := next],
                       lt := Known(hw.less(next, hw.zx(1024))))
  {
    ExecThree(hw, Alu(EorR, Pin(0), Pin(0), COUNTER), AddImm(COUNTER, COUNTER, 1), CmpImm(COUNTER, 1024), st);
    st' := ExecAll(hw, LoopEnd(), st);
  }

  lemma LoopEndView(hw: Hw, st: AState, st': AState)
    requires st.Valid() && st'.Valid() && st'.pad == st.pad
    requires st'.r == st.r[19 := hw.xor(st.r[19], st.r[12])][12 := st'.r[12]]
    ensures View(st') == SetReg(View(st), 0, hw.xor(View(st).r[0], st.r[12]))
  {
    assert View(st').r == SetReg(View(st), 0, hw.xor(View(st).r[0], st.r[12])).r;
  }

  /** One iteration: the flag tells whether another one follows. */
  lemma RunIteration(hw: Hw, key: Block, prog: seq<Instr>, st0: AState, st: AState, n: nat) returns (st': AState)
    requires AtTop(hw, key, prog, st0, st, n) && hw.Lawful() && n < 1024
    ensures st' == ExecAll(hw, Body(prog) + LoopEnd(), st)
    ensures st'.ok && st'.lt == Known(n + 1 < 1024)
    ensures AtTop(hw, key, prog, st0, st', n + 1)
  {
    hide ExecAll, Hw.ImmediateLaws, Hw.BitwiseLaws, Hw.RotationLaws, Hw.MaskLaws, Hw.AesLaws, Body, LoopEnd,
      RunSlots, SavedWords;
    RunBody(hw, key, prog, st);
    var st1 := ExecAll(hw, Body(prog), st);
    st' := RunLoopEnd(hw, st1);
    ExecAppend(hw, Body(prog), LoopEnd(), st);
    LoopEndView(hw, st1, st');
    assert st'.r[12] == hw.Count(n + 1);
  }

  // ----- the epilogue -----

  lemma {:induction false} RunFold(hw: Hw, n: nat, st: AState) returns (st': AState)
    requires st.Valid() && hw.BitwiseLaws() && 1 <= n <= 8
    ensures st' == ExecAll(hw, FoldCode(n), st)
    ensures st' == st.(r := st.r[0 := Fold(hw, View(st).r, n)])
  {
    hide Exec, Hw.BitwiseLaws;
    if n == 1 {
      st' := DoAlu(hw, OrrR, 0, 31, Pin(0), st);
      ExecOne(hw, Alu(OrrR, 0, 31, Pin(0)), st);
      AddZero(hw, View(st).r[0]);
      assert Fold(hw, View(st).r, 1) == View(st).r[0];
    } else {
      var st1 := RunFold(hw, n - 1, st);
      st' := DoAlu(hw, EorR, 0, 0, Pin(n - 1), st1);
      ExecAppend(hw, FoldCode(n - 1), [Alu(EorR, 0, 0, Pin(n - 1))], st);
      ExecOne(hw, Alu(EorR, 0, 0, Pin(n - 1)), st1);
      assert View(st).r[n - 1] == st1.r[Pin(n - 1)];
    }
  }

  /** What the function returns with: the digest in x0, the final pad, and the caller's
      callee-saved registers and stack. */
  ghost predicate Returned(hw: Hw, key: Block, prog: seq<Instr>, st0: AState, st: AState) {
    && st0.Valid() && st.Valid() && st.ok
    && st.r[0] == Digest(Compiled, hw, key, prog, st0.pad, st0.r[1])
    && st.pad == FinalVm(Compiled, hw, key, prog, st0.pad, st0.r[1]).sc
    && st.stack == st0.stack
    && (forall j: AReg :: 18 <= j < 31 ==> st.r[j] == st0.r[j])
  }

  lemma RunEpilogue(hw: Hw, key: Block, prog: seq<Instr>, st0: AState, st: AState) returns (st': AState)
    requires AtTop(hw, key, prog, st0, st, LOOPS) && hw.BitwiseLaws()
    ensures st' == ExecAll(hw, FoldCode(8) + RestoreCode(5), st)
    ensures Returned(hw, key, prog, st0, st')
  {
    hide ExecAll, Hw.BitwiseLaws, FoldCode, RestoreCode, Fold, RunLoops, SavedWords;
    var a := RunFold(hw, 8, st);
    st' := RunRestore(hw, 5, st0.stack, st0.r, a);
    ExecAppend(hw, FoldCode(8), RestoreCode(5), st);
  }
}
