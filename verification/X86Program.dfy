/** The whole emitted program: its layout, and what its straight-line parts do. */
module X86Program {
  import opened Hardware
  import opened Isochron
  import opened X86
  import opened X86Compile

  const SAVED: seq<XReg> := [3, 5, 12, 13, 14, 15]

  function SaveCode(): seq<XInstr> { [Push(3), Push(5), Push(12)] + [Push(13), Push(14), Push(15)] }

  function RestoreCode(): seq<XInstr> { [Pop(15), Pop(14), Pop(13)] + [Pop(12), Pop(5), Pop(3)] }

  function InitOne(i: Reg): seq<XInstr> {
    if i == 0 then [ImulImm(Pin(i), RSI, ODD[i])]
    else [ImulImm(Pin(i), RSI, ODD[i]), AddImm(Pin(i), INDEX[i])]
  }

  function InitCode(n: nat): seq<XInstr>
    requires n <= 8
  {
    if n == 0 then [] else InitCode(n - 1) + InitOne(n - 1)
  }

  function Prologue(): seq<XInstr> {
    SaveCode() + [MovImm64(R11, MULT), LoadKey] + InitCode(8) + [ClearR10]
  }

  function Body(prog: seq<Instr>): seq<XInstr> {
    if prog == [] then [] else Body(prog[..|prog| - 1]) + SlotCode(prog[|prog| - 1])
  }

  /** Mixes the counter in, advances it and compares; the conditional jump follows. */
  function LoopEnd(): seq<XInstr> { [Alu(AluXor, Pin(0), R10), IncR10, CmpR10(1024)] }

  function FoldCode(n: nat): seq<XInstr>
    requires 1 <= n <= 8
  {
    if n == 1 then [Alu(AluMov, RAX, Pin(0))] else FoldCode(n - 1) + [Alu(AluXor, RAX, Pin(n - 1))]
  }

  // ----- the prologue -----

  lemma RunSave(hw: Hw, st: XState) returns (st': XState)
    requires st.Valid()
    ensures st' == ExecAll(hw, SaveCode(), st)
    ensures st' == st.(stack := st.stack + [st.r[3], st.r[5], st.r[12], st.r[13], st.r[14], st.r[15]], lt := Undefined)
  {
    ExecSix(hw, Push(3), Push(5), Push(12), Push(13), Push(14), Push(15), st);
    st' := ExecAll(hw, SaveCode(), st);
    assert st'.stack == st.stack + [st.r[3], st.r[5], st.r[12], st.r[13], st.r[14], st.r[15]];
  }

  lemma SmallConstants(hw: Hw, i: Reg)
    requires hw.ImmediateLaws()
    ensures hw.sx(ODD[i]) == hw.zx(ODD[i]) && hw.sx(INDEX[i]) == hw.zx(INDEX[i])
  {
    assert ODD[i] < 0x8000_0000 && INDEX[i] < 0x8000_0000;
  }

  lemma RunInitOne(hw: Hw, i: Reg, st: XState) returns (st': XState)
    requires st.Valid() && hw.ImmediateLaws() && hw.BitwiseLaws()
    ensures st' == ExecAll(hw, InitOne(i), st)
    ensures st' == st.(r := st.r[Pin(i) := InitialReg(hw, st.r[6], i)], lt := Undefined)
  {
    hide Hw.ImmediateLaws, Hw.BitwiseLaws;
    SmallConstants(hw, i);
    st' := ExecAll(hw, InitOne(i), st);
    if i == 0 {
      ExecOne(hw, InitOne(i)[0], st);
      AddZero(hw, hw.mul(st.r[6], hw.zx(1)));
    } else {
      ExecTwo(hw, InitOne(i)[0], InitOne(i)[1], st);
    }
  }

  lemma AddZero(hw: Hw, x: Word)
    requires hw.BitwiseLaws()
    ensures hw.add(x, hw.zx(0)) == x
  {
    assert hw.Zero() == hw.zx(0);
  }

  /** After n initialisers: those registers hold their values and nothing else moved. */
  lemma {:induction false} RunInit(hw: Hw, n: nat, st: XState) returns (st': XState)
    requires st.Valid() && hw.ImmediateLaws() && hw.BitwiseLaws() && n <= 8 && st.lt == Undefined
    ensures st' == ExecAll(hw, InitCode(n), st) && st'.Valid()
    ensures st' == st.(r := st'.r)
    ensures forall i: Reg :: i < n ==> st'.r[Pin(i)] == InitialReg(hw, st.r[6], i)
    ensures forall j: XReg :: (forall i: Reg :: i < n ==> j != Pin(i)) ==> st'.r[j] == st.r[j]
  {
    hide Exec, Hw.ImmediateLaws, Hw.BitwiseLaws, InitOne;
    if n == 0 {
      st' := st;
    } else {
      var st1 := RunInit(hw, n - 1, st);
      st' := RunInitOne(hw, n - 1, st1);
      ExecAppend(hw, InitCode(n - 1), InitOne(n - 1), st);
    }
  }

  // ----- the loop -----

  /** The entry conditions of the generated function: pad, key and seed in their registers. */
  ghost predicate Entry(hw: Hw, key: Block, st: XState) {
    && st.Valid() && st.ok
    && st.r[7] == st.padBase && st.r[2] == st.keyBase && st.key == key
  }

  /** The stack holds the caller's registers on top of what it held on entry. */
  ghost predicate Saved(st0: XState, st: XState) {
    && st0.Valid() && st.Valid()
    && st.stack == st0.stack + [st0.r[3], st0.r[5], st0.r[12], st0.r[13], st0.r[14], st0.r[15]]
    && st.r[4] == st0.r[4] && st.padBase == st0.padBase && st.keyBase == st0.keyBase && st.key == st0.key
  }

  function Start(hw: Hw, st0: XState): (vm: Vm)
    requires st0.Valid()
    ensures vm.Valid()
  {
    Vm(InitialRegs(hw, st0.r[6]), st0.pad)
  }

  /** The machine at the top of the loop after n iterations. */
  ghost predicate AtTop(hw: Hw, key: Block, prog: seq<Instr>, st0: XState, st: XState, n: nat) {
    && Saved(st0, st) && Pinned(hw, key, st)
    && st.r[10] == hw.Count(n)
    && View(st) == RunLoops(Compiled, hw, key, prog, Start(hw, st0), n)
  }

  lemma InitialView(hw: Hw, st0: XState, st: XState)
    requires st0.Valid() && st.Valid() && st.pad == st0.pad
    requires forall i: Reg :: st.r[Pin(i)] == InitialReg(hw, st0.r[6], i)
    ensures View(st) == Start(hw, st0)
  {
    forall i: Reg ensures View(st).r[i] == Start(hw, st0).r[i] {
      assert View(st).r[i] == st.r[Pin(i)];
    }
    assert View(st).r == Start(hw, st0).r;
  }

  lemma RunSetup(hw: Hw, st: XState) returns (st': XState)
    requires st.Valid() && st.r[2] == st.keyBase
    ensures st' == ExecAll(hw, [MovImm64(R11, MULT), LoadKey], st)
    ensures st' == st.(r := st.r[11 := hw.imm64(MULT)], x0 := st.key, lt := Undefined)
  {
    ExecTwo(hw, MovImm64(R11, MULT), LoadKey, st);
    st' := ExecAll(hw, [MovImm64(R11, MULT), LoadKey], st);
  }

  lemma RunClear(hw: Hw, st: XState) returns (st': XState)
    requires st.Valid()
    ensures st' == ExecAll(hw, [ClearR10], st) == st.(r := st.r[10 := hw.Zero()], lt := Undefined)
  {
    ExecOne(hw, ClearR10, st);
    st' := ExecAll(hw, [ClearR10], st);
  }

  /** The prologue leads to the top of the loop with nothing iterated. */
  lemma RunPrologue(hw: Hw, key: Block, prog: seq<Instr>, st0: XState) returns (st: XState)
    requires Entry(hw, key, st0) && hw.ImmediateLaws() && hw.BitwiseLaws()
    ensures st == ExecAll(hw, Prologue(), st0)
    ensures AtTop(hw, key, prog, st0, st, 0)
  {
    hide ExecAll, Hw.ImmediateLaws, Hw.BitwiseLaws, SaveCode, InitCode, InitialReg;
    var a := RunSave(hw, st0);
    var b := RunSetup(hw, a);
    var c := RunInit(hw, 8, b);
    st := RunClear(hw, c);
    var setup := [MovImm64(R11, MULT), LoadKey];
    ExecAppend(hw, SaveCode(), setup, st0);
    ExecAppend(hw, SaveCode() + setup, InitCode(8), st0);
    ExecAppend(hw, SaveCode() + setup + InitCode(8), [ClearR10], st0);
    forall i: Reg ensures Pin(i) !in {4, 6, 7, 10, 11} {}
    InitialView(hw, st0, st);
  }

  lemma {:induction false} RunBody(hw: Hw, key: Block, prog: seq<Instr>, st: XState)
    requires Pinned(hw, key, st) && hw.Lawful()
    ensures var st' := ExecAll(hw, Body(prog), st);
            && Pinned(hw, key, st') && Frame(st, st')
            && View(st') == RunSlots(Compiled, hw, key, prog, View(st))
  {
    hide Exec, Hw.Lawful, SlotCode, CompiledStep;
    if prog != [] {
      var n := |prog| - 1;
      RunBody(hw, key, prog[..n], st);
      var st1 := ExecAll(hw, Body(prog[..n]), st);
      SlotCorrect(hw, key, prog[n], st1);
      ExecAppend(hw, Body(prog[..n]), SlotCode(prog[n]), st);
    }
  }

  lemma RunLoopEnd(hw: Hw, st: XState) returns (st': XState)
    requires st.Valid()
    ensures st' == ExecAll(hw, LoopEnd(), st)
    ensures var r10 := hw.add(st.r[10], hw.zx(1));
            st' == st.(r := st.r[3 := hw.xor(st.r[3], st.r[10])][10 := r10],
                       lt := Known(hw.less(r10, hw.sx(1024))))
  {
    ExecThree(hw, Alu(AluXor, Pin(0), R10), IncR10, CmpR10(1024), st);
    st' := ExecAll(hw, LoopEnd(), st);
  }

  lemma LoopEndView(hw: Hw, st: XState, st': XState)
    requires st.Valid() && st'.Valid() && st'.pad == st.pad
    requires st'.r == st.r[3 := hw.xor(st.r[3], st.r[10])][10 := st'.r[10]]
    ensures View(st') == SetReg(View(st), 0, hw.xor(View(st).r[0], st.r[10]))
  {
    assert View(st').r == SetReg(View(st), 0, hw.xor(View(st).r[0], st.r[10])).r;
  }

  lemma Compare(hw: Hw, n: nat)
    requires hw.ImmediateLaws() && hw.CounterLaws() && n <= 1024
    ensures hw.less(hw.Count(n), hw.sx(1024)) <==> n < 1024
  {
    assert hw.sx(1024) == hw.zx(1024);
  }

  /** One iteration: the flag tells whether another one follows. */
  lemma RunIteration(hw: Hw, key: Block, prog: seq<Instr>, st0: XState, st: XState, n: nat) returns (st': XState)
    requires AtTop(hw, key, prog, st0, st, n) && hw.Lawful() && n < 1024
    ensures st' == ExecAll(hw, Body(prog) + LoopEnd(), st)
    ensures st'.ok && st'.lt == Known(n + 1 < 1024)
    ensures AtTop(hw, key, prog, st0, st'.(lt := Undefined), n + 1)
  {
    hide ExecAll, Hw.ImmediateLaws, Hw.CounterLaws, Hw.BitwiseLaws, Hw.RotationLaws, Hw.MaskLaws, Hw.AesLaws, Body,
      LoopEnd,
      RunSlots;
    RunBody(hw, key, prog, st);
    var st1 := ExecAll(hw, Body(prog), st);
    st' := RunLoopEnd(hw, st1);
    ExecAppend(hw, Body(prog), LoopEnd(), st);
    LoopEndView(hw, st1, st'.(lt := Undefined));
    Compare(hw, n + 1);
  }

  // ----- the epilogue -----

  lemma {:induction false} RunFold(hw: Hw, n: nat, st: XState) returns (st': XState)
    requires st.Valid() && hw.BitwiseLaws() && 1 <= n <= 8
    ensures st' == ExecAll(hw, FoldCode(n), st)
    ensures st' == st.(r := st.r[0 := Fold(hw, View(st).r, n)], lt := Undefined)
  {
    hide Exec, Hw.BitwiseLaws;
    if n == 1 {
      st' := DoAlu(hw, AluMov, RAX, Pin(0), st);
      ExecOne(hw, Alu(AluMov, RAX, Pin(0)), st);
      ZeroXor(hw, View(st).r[0]);
      assert Fold(hw, View(st).r, 1) == View(st).r[0];
    } else {
      var st1 := RunFold(hw, n - 1, st);
      st' := DoAlu(hw, AluXor, RAX, Pin(n - 1), st1);
      ExecAppend(hw, FoldCode(n - 1), [Alu(AluXor, RAX, Pin(n - 1))], st);
      ExecOne(hw, Alu(AluXor, RAX, Pin(n - 1)), st1);
      assert View(st).r[n - 1] == st1.r[Pin(n - 1)];
    }
  }

  lemma ZeroXor(hw: Hw, x: Word)
    requires hw.BitwiseLaws()
    ensures hw.xor(hw.Zero(), x) == x
  {
  }

  lemma DoPop(hw: Hw, reg: XReg, base: seq<Word>, v: Word, st: XState) returns (st': XState)
    requires st.Valid() && st.stack == base + [v]
    ensures st' == Exec(hw, Pop(reg), st) == st.(r := st.r[reg := v], stack := base, lt := Undefined)
  {
    st' := Exec(hw, Pop(reg), st);
    assert st.stack[..|st.stack| - 1] == base;
  }

  /** The pops restore the caller's registers and stack. */
  lemma RunRestore(hw: Hw, st0: XState, st: XState) returns (st': XState)
    requires st0.Valid() && st.Valid()
    requires st.stack == st0.stack + [st0.r[3], st0.r[5], st0.r[12], st0.r[13], st0.r[14], st0.r[15]]
    ensures st' == ExecAll(hw, RestoreCode(), st)
    ensures st' == st.(r := st'.r, stack := st0.stack, lt := Undefined)
    ensures st'.r[0] == st.r[0] && st'.r[4] == st.r[4]
    ensures forall i :: 0 <= i < 6 ==> st'.r[SAVED[i]] == st0.r[SAVED[i]]
  {
    hide Exec;
    var s, r := st0.stack, st0.r;
    assert st.stack == (s + [r[3], r[5], r[12], r[13], r[14]]) + [r[15]];
    var a := DoPop(hw, 15, s + [r[3], r[5], r[12], r[13], r[14]], r[15], st);
    assert a.stack == (s + [r[3], r[5], r[12], r[13]]) + [r[14]];
    var b := DoPop(hw, 14, s + [r[3], r[5], r[12], r[13]], r[14], a);
    assert b.stack == (s + [r[3], r[5], r[12]]) + [r[13]];
    var c := DoPop(hw, 13, s + [r[3], r[5], r[12]], r[13], b);
    assert c.stack == (s + [r[3], r[5]]) + [r[12]];
    var d := DoPop(hw, 12, s + [r[3], r[5]], r[12], c);
    assert d.stack == (s + [r[3]]) + [r[5]];
    var e := DoPop(hw, 5, s + [r[3]], r[5], d);
    st' := DoPop(hw, 3, s, r[3], e);
    ExecSix(hw, Pop(15), Pop(14), Pop(13), Pop(12), Pop(5), Pop(3), st);
  }

  /** What the function returns with: the digest in rax, the final pad, and the caller's
      saved registers and stack. */
  ghost predicate Returned(hw: Hw, key: Block, prog: seq<Instr>, st0: XState, st: XState) {
    && st0.Valid() && st.Valid() && st.ok
    && st.r[0] == Digest(Compiled, hw, key, prog, st0.pad, st0.r[6])
    && st.pad == FinalVm(Compiled, hw, key, prog, st0.pad, st0.r[6]).sc
    && st.stack == st0.stack && st.r[4] == st0.r[4]
    && (forall i :: 0 <= i < 6 ==> st.r[SAVED[i]] == st0.r[SAVED[i]])
  }

  lemma RunEpilogue(hw: Hw, key: Block, prog: seq<Instr>, st0: XState, st: XState) returns (st': XState)
    requires AtTop(hw, key, prog, st0, st, LOOPS) && hw.BitwiseLaws()
    ensures st' == ExecAll(hw, FoldCode(8) + RestoreCode(), st)
    ensures Returned(hw, key, prog, st0, st')
  {
    hide ExecAll, Hw.BitwiseLaws, FoldCode, RestoreCode, Fold, RunLoops;
    var a := RunFold(hw, 8, st);
    st' := RunRestore(hw, st0, a);
    ExecAppend(hw, FoldCode(8), RestoreCode(), st);
  }
}
