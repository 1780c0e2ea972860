/** The emitted A64 program, run from its bytes, computes the digest. */
module A64Correct {
  import opened Hardware
  import opened Isochron
  import opened A64
  import opened A64Bytes
  import opened A64Compile
  import opened A64Program
  import opened A64Run

  // ----- every slot and every fixed part encodes and runs straight through -----

  lemma PlainAppend(a: seq<AInstr>, b: seq<AInstr>)
    requires Plain(a) && Plain(b)
    ensures Plain(a + b)
  {
    hide Encodable;
  }

  lemma PlainImm(d: AReg, v: bv32)
    ensures Plain(Imm32(d, v))
  {
  }

  lemma PlainImmOp(op: Op3, d: AReg, tmp: AReg, imm: bv32)
    ensures Plain(ImmOp(op, d, tmp, imm))
  {
    hide Plain, Imm32;
    PlainImm(tmp, imm);
    PlainAlu(op, d, d, tmp);
    PlainAppend(Imm32(tmp, imm), [Alu(op, d, d, tmp)]);
  }

  lemma PlainAlu(op: Op3, d: AReg, n: AReg, m: AReg)
    ensures Plain([Alu(op, d, n, m)])
  {
  }

  lemma PlainAddr(src: AReg, k: bv32, mask: AReg, tmp: AReg)
    ensures Plain(Addr(src, k, mask, tmp)) && |Addr(src, k, mask, tmp)| == 6
  {
    hide Plain;
    var a, b := [Alu(EorR, T0, src, tmp), Alu(MulR, T0, T0, MULTIPLIER)], [LsrImm(T0, T0, 40), Alu(AndR, T0, T0, mask)];
    PlainImm(tmp, k);
    assert Plain(a) && Plain(b) by { PlainShort(src, mask, tmp); }
    PlainAppend(Imm32(tmp, k), a);
    PlainAppend(Imm32(tmp, k) + a, b);
  }

  lemma PlainShort(src: AReg, mask: AReg, tmp: AReg)
    ensures Plain([Alu(EorR, T0, src, tmp), Alu(MulR, T0, T0, MULTIPLIER)])
    ensures Plain([LsrImm(T0, T0, 40), Alu(AndR, T0, T0, mask)])
  {
  }

  lemma PlainAccess(op: Op3, x: AReg)
    ensures Plain(UpdateCode(op, x)) && Plain(LoadCode(op, x)) && Plain(LineCode(x))
  {
  }

  lemma PlainMasked(turn: bv8, mid: AInstr, d: AReg, imm: bv32)
    requires turn < 64 && mid.Alu?
    ensures Plain(MaskedCode(turn, mid, d, imm))
  {
    hide Imm32;
    PlainImm(T0, imm);
  }

  /** The frozen table of body lengths, in bytes. */
  function A64Len(op: Op): nat {
    match op
    case Add => 16 case Sub => 16 case Xor => 16
    case Or => 20 case And => 20 case Andn => 20
    case Rolx => 8 case Rola => 8 case Rorx => 8 case Rora => 8
    case Vrol => 20 case Vror => 16
    case Load => 32 case Store => 36 case Rmw => 68 case Loadb => 32 case Storeb => 36 case Rmwb => 68
    case Mullo => 8 case Mulhi => 20 case Aesr => 52
  }

  lemma ComplementSmall(imm: bv32)
    ensures Complement(imm) < 64 && Turn(imm) < 64
  {
  }

  lemma PlainRegisterSlot(slot: Instr)
    requires RegisterOnly(slot.op)
    ensures Plain(SlotCode(slot)) && 4 * |SlotCode(slot)| == A64Len(slot.op)
  {
    hide ImmOp, MaskedCode, Turn, Complement;
    var d, s, imm := Pin(slot.d), Pin(slot.s), slot.imm;
    ComplementSmall(imm);
    ImmOpSize(d, imm);
    match slot.op {
      case Or => PlainMasked(64 - 17, Alu(OrrR, T0, s, T0), d, imm); MaskedSize(64 - 17, Alu(OrrR, T0, s, T0), d, imm);
      case And => PlainMasked(64 - 23, Alu(AndR, T0, s, T0), d, imm); MaskedSize(64 - 23, Alu(AndR, T0, s, T0), d, imm);
      case Andn =>
        PlainMasked(64 - 29, Alu(BicR, T0, T0, s), d, imm);
        MaskedSize(64 - 29, Alu(BicR, T0, T0, s), d, imm);
      case _ =>
    }
  }

  lemma ImmOpSize(d: AReg, imm: bv32)
    ensures forall op: Op3, t: AReg :: |ImmOp(op, d, t, imm)| == 3 && Plain(ImmOp(op, d, t, imm))
  {
    forall op: Op3, t: AReg ensures |ImmOp(op, d, t, imm)| == 3 && Plain(ImmOp(op, d, t, imm)) {
      PlainImmOp(op, d, t, imm);
    }
  }

  lemma MaskedSize(turn: bv8, mid: AInstr, d: AReg, imm: bv32)
    ensures |MaskedCode(turn, mid, d, imm)| == 5
  {
  }

  lemma PlainMemorySlot(slot: Instr)
    requires !RegisterOnly(slot.op)
    ensures Plain(SlotCode(slot)) && 4 * |SlotCode(slot)| == A64Len(slot.op)
  {
    hide SlotCode, Addr, Plain, AddrKey;
    var d, s, k := Pin(slot.d), Pin(slot.s), AddrKey(slot.op, slot.imm);
    MemoryCode(slot);
    PlainAddr(s, k, MASK, T1);
    PlainAccess(AddR, d);
    PlainAccess(EorR, d);
    match slot.op {
      case Load | Loadb => PlainAppend(Addr(s, k, MASK, T1), LoadCode(EorR, d));
      case Store | Storeb =>
        PlainAddr(d, k, MASK, T1);
        PlainAccess(AddR, s);
        PlainAppend(Addr(d, k, MASK, T1), UpdateCode(AddR, s));
      case Rmw => PlainUpdateLoad(Addr(s, k, MASK, T1), AddR, EorR, d, C2);
      case Rmwb => PlainUpdateLoad(Addr(s, k, MASK, T1), EorR, AddR, d, C1);
      case Aesr =>
        PlainAddr(s, k, LINE, T1);
        PlainAppend(Addr(s, k, LINE, T1), LineCode(d));
    }
  }

  lemma PlainUpdateLoad(a: seq<AInstr>, op: Op3, op2: Op3, d: AReg, k2: bv32)
    requires Plain(a) && |a| == 6
    ensures var code := a + UpdateCode(op, d) + Addr(T1, k2, MASK, T2) + LoadCode(op2, d); Plain(code) && |code| == 17
  {
    hide Addr, Plain;
    PlainAccess(op, d);
    PlainAccess(op2, d);
    PlainAddr(T1, k2, MASK, T2);
    PlainAppend(a, UpdateCode(op, d));
    PlainAppend(a + UpdateCode(op, d), Addr(T1, k2, MASK, T2));
    PlainAppend(a + UpdateCode(op, d) + Addr(T1, k2, MASK, T2), LoadCode(op2, d));
  }

  lemma PlainSlot(slot: Instr)
    ensures Plain(SlotCode(slot)) && 4 * |SlotCode(slot)| == A64Len(slot.op)
  {
    hide Plain, SlotCode;
    if RegisterOnly(slot.op) {
      PlainRegisterSlot(slot);
    } else {
      PlainMemorySlot(slot);
    }
  }

  function BodyLen(prog: seq<Instr>): nat {
    if prog == [] then 0 else BodyLen(prog[..|prog| - 1]) + A64Len(prog[|prog| - 1].op)
  }

  lemma {:induction false} PlainBody(prog: seq<Instr>)
    ensures Plain(Body(prog)) && 4 * |Body(prog)| == BodyLen(prog)
    ensures |Body(prog)| <= 17 * |prog|
  {
    hide SlotCode, Plain;
    if prog == [] {
      PlainNone();
    } else {
      PlainBody(prog[..|prog| - 1]);
      PlainSlot(prog[|prog| - 1]);
      PlainAppend(Body(prog[..|prog| - 1]), SlotCode(prog[|prog| - 1]));
    }
  }

  lemma PlainNone()
    ensures Plain([])
  {
  }

  lemma PlainInitOne(i: Reg)
    ensures Plain(InitOne(i)) && |InitOne(i)| == if i == 0 then 3 else 4
  {
    hide Imm32;
    PlainImm(T0, ODD[i]);
    assert |Imm32(T0, ODD[i])| == 2 by { ImmSize(T0, ODD[i]); }
    assert INDEX[i] < 4096;
  }

  lemma ImmSize(d: AReg, v: bv32)
    ensures |Imm32(d, v)| == 2
  {
  }

  lemma {:induction false} PlainInit(n: nat)
    requires n <= 8
    ensures Plain(InitCode(n)) && |InitCode(n)| == if n == 0 then 0 else 4 * n - 1
  {
    hide Plain, InitOne;
    if n == 0 {
      PlainNone();
    } else {
      PlainInit(n - 1);
      PlainInitOne(n - 1);
      PlainAppend(InitCode(n - 1), InitOne(n - 1));
    }
  }

  lemma {:induction false} PlainSave(n: nat)
    requires n <= 5
    ensures Plain(SaveCode(n)) && Plain(RestoreCode(n)) && |SaveCode(n)| == |RestoreCode(n)| == n
  {
    if n > 0 {
      PlainSave(n - 1);
    }
  }

  lemma {:induction false} PlainFold(n: nat)
    requires 1 <= n <= 8
    ensures Plain(FoldCode(n)) && |FoldCode(n)| == n
  {
    if n > 1 {
      PlainFold(n - 1);
    }
  }

  lemma PlainSetup()
    ensures Plain(SetupCode()) && |SetupCode()| == 11
  {
    hide Imm32;
    PlainImm(MASK, SCRATCH_MASK);
    PlainImm(LINE, LINE_MASK);
    ImmSize(MASK, SCRATCH_MASK);
    ImmSize(LINE, LINE_MASK);
  }

  lemma PlainPrologue()
    ensures Plain(Prologue()) && |Prologue()| == 48
  {
    hide Plain, SaveCode, SetupCode, InitCode;
    PlainSave(5);
    PlainSetup();
    PlainInit(8);
    assert Plain([Movz(COUNTER, 0)]) by { PlainMovz(COUNTER); }
    PlainAppend(SaveCode(5), SetupCode());
    PlainAppend(SaveCode(5) + SetupCode(), InitCode(8));
    PlainAppend(SaveCode(5) + SetupCode() + InitCode(8), [Movz(COUNTER, 0)]);
  }

  lemma PlainMovz(d: AReg)
    ensures Plain([Movz(d, 0)])
  {
  }

  lemma PlainTail()
    ensures Plain(Tail()) && |Tail()| == 13
  {
    hide FoldCode, RestoreCode;
    PlainFold(8);
    PlainSave(5);
  }

  lemma PlainLoop(prog: seq<Instr>)
    ensures Plain(LoopCode(prog)) && |LoopCode(prog)| == |Body(prog)| + 3
  {
    hide Body;
    PlainBody(prog);
  }

  // ----- the whole program -----

  function LoopCode(prog: seq<Instr>): seq<AInstr> { Body(prog) + LoopEnd() }

  /** The conditional branch from itself back to the top of the loop. */
  function BranchBack(prog: seq<Instr>): AInstr { BLt(0 - |LoopCode(prog)|) }

  function Tail(): seq<AInstr> { FoldCode(8) + RestoreCode(5) }

  function BeforeTail(prog: seq<Instr>): seq<AInstr> { Prologue() + LoopCode(prog) + [BranchBack(prog)] }

  function Code(prog: seq<Instr>): seq<AInstr> { BeforeTail(prog) + Tail() + [Ret] }

  /** The bytes the compiler writes. */
  function Bytes(prog: seq<Instr>): seq<bv8> { EncodeAll(Code(prog)) }

  function Top(): nat { 4 * |Prologue()| }

  function BranchAt(prog: seq<Instr>): nat { 4 * |Prologue() + LoopCode(prog)| }

  function RetAt(prog: seq<Instr>): nat { 4 * |BeforeTail(prog) + Tail()| }

  lemma BackInRange(prog: seq<Instr>)
    requires |prog| == PROG_INSTR
    ensures Encodable(BranchBack(prog))
  {
    hide Body;
    PlainBody(prog);
  }

  /** The branch at the end of an iteration lands on the top of the loop, or falls through. */
  lemma TakeBranch(hw: Hw, prog: seq<Instr>, st: AState, again: bool)
    requires st.Valid() && st.lt == Known(again) && |prog| == PROG_INSTR
    ensures Reaches(hw, Bytes(prog), BranchAt(prog), st, if again then Top() else BranchAt(prog) + 4, st)
  {
    hide EncodeAll, Fetch, Prologue, LoopCode, Tail, Encodable, Exec;
    var front, back := Prologue() + LoopCode(prog), Tail() + [Ret];
    BackInRange(prog);
    assert Code(prog) == front + [BranchBack(prog)] + back;
    FetchNext(front, BranchBack(prog), back);
    ReachStep(hw, Bytes(prog), BranchAt(prog), st, if again then Top() else BranchAt(prog) + 4, st);
  }

  lemma OneIteration(hw: Hw, key: Block, prog: seq<Instr>, st0: AState, st: AState, n: nat) returns (st': AState)
    requires AtTop(hw, key, prog, st0, st, n) && hw.Lawful() && n < 1024 && |prog| == PROG_INSTR
    ensures AtTop(hw, key, prog, st0, st', n + 1)
    ensures Reaches(hw, Bytes(prog), Top(), st, if n + 1 < 1024 then Top() else BranchAt(prog) + 4, st')
  {
    hide EncodeAll, ExecAll, Prologue, Body, LoopEnd, Tail, Plain, AtTop, Hw.Lawful, BranchBack, Reaches;
    var front, back := Prologue(), [BranchBack(prog)] + (Tail() + [Ret]);
    AtTopValid(hw, key, prog, st0, st, n);
    st' := RunIteration(hw, key, prog, st0, st, n);
    PlainLoop(prog);
    RunStraight(hw, front, LoopCode(prog), back, st);
    assert Code(prog) == front + LoopCode(prog) + back;
    TakeBranch(hw, prog, st', n + 1 < 1024);
    ReachTrans(hw, Bytes(prog), Top(), st, BranchAt(prog), st',
               if n + 1 < 1024 then Top() else BranchAt(prog) + 4, st');
  }

  lemma AtTopValid(hw: Hw, key: Block, prog: seq<Instr>, st0: AState, st: AState, n: nat)
    requires AtTop(hw, key, prog, st0, st, n)
    ensures st.Valid()
  {
  }

  lemma ReachPrologue(hw: Hw, key: Block, prog: seq<Instr>, st0: AState) returns (st: AState)
    requires Entry(hw, key, st0) && hw.Lawful()
    ensures AtTop(hw, key, prog, st0, st, 0) && Reaches(hw, Bytes(prog), 0, st0, Top(), st)
  {
    hide EncodeAll, ExecAll, Prologue, LoopCode, Tail, BranchBack, Plain, Hw.ImmediateLaws, Hw.BitwiseLaws,
      Hw.CounterLaws, Hw.RotationLaws, Hw.MaskLaws, Hw.AesLaws, Reaches;
    st := RunPrologue(hw, key, prog, st0);
    PlainPrologue();
    var rest := LoopCode(prog) + [BranchBack(prog)] + (Tail() + [Ret]);
    RunStraight(hw, [], Prologue(), rest, st0);
    assert [] + Prologue() + rest == Code(prog);
    assert [] + Prologue() == Prologue();
  }

  /** From the first byte: after n iterations the machine is at the top of the loop, or past it
      after the last. */
  lemma {:induction false} AfterIterations(hw: Hw, key: Block, prog: seq<Instr>, st0: AState, n: nat)
      returns (st: AState)
    requires Entry(hw, key, st0) && hw.Lawful() && |prog| == PROG_INSTR && n <= 1024
    ensures AtTop(hw, key, prog, st0, st, n)
    ensures Reaches(hw, Bytes(prog), 0, st0, if n < 1024 then Top() else BranchAt(prog) + 4, st)
  {
    hide EncodeAll, Top, BranchAt, Bytes, AtTop, Hw.Lawful, Reaches, Entry;
    if n == 0 {
      st := ReachPrologue(hw, key, prog, st0);
    } else {
      var before := AfterIterations(hw, key, prog, st0, n - 1);
      st := OneIteration(hw, key, prog, st0, before, n - 1);
      ReachTrans(hw, Bytes(prog), 0, st0, Top(), before, if n < 1024 then Top() else BranchAt(prog) + 4, st);
    }
  }

  lemma ReachEpilogue(hw: Hw, key: Block, prog: seq<Instr>, st0: AState, st: AState) returns (st': AState)
    requires AtTop(hw, key, prog, st0, st, 1024) && hw.Lawful()
    ensures Returned(hw, key, prog, st0, st')
    ensures Reaches(hw, Bytes(prog), BranchAt(prog) + 4, st, RetAt(prog), st')
  {
    hide EncodeAll, ExecAll, Prologue, LoopCode, BranchBack, Returned, FoldCode, RestoreCode, AtTop, Plain, Reaches,
      Hw.ImmediateLaws, Hw.BitwiseLaws, Hw.CounterLaws, Hw.RotationLaws, Hw.MaskLaws, Hw.AesLaws;
    AtTopValid(hw, key, prog, st0, st, 1024);
    st' := RunEpilogue(hw, key, prog, st0, st);
    ReturnedOk(hw, key, prog, st0, st');
    PlainTail();
    RunStraight(hw, BeforeTail(prog), Tail(), [Ret], st);
  }

  lemma ReturnedOk(hw: Hw, key: Block, prog: seq<Instr>, st0: AState, st: AState)
    requires Returned(hw, key, prog, st0, st)
    ensures st.ok && st.Valid()
  {
  }

  lemma HaltAtRet(hw: Hw, prog: seq<Instr>, st: AState)
    requires st.Valid()
    ensures StepAt(hw, Bytes(prog), RetAt(prog), st) == Halted(st)
  {
    hide EncodeAll, Fetch, BeforeTail, Tail, Exec;
    FetchNext(BeforeTail(prog) + Tail(), Ret, []);
    assert BeforeTail(prog) + Tail() + [Ret] + [] == Code(prog);
  }

  /** Called with the pad, seed and key in their registers, the words emitted for any program
      run to their return without leaving the pad, with the compiled digest in x0, the
      compiled final pad in memory, and the caller's registers and stack restored. */
  lemma A64RunsProgram(hw: Hw, key: Block, prog: seq<Instr>, st0: AState) returns (st': AState)
    requires Entry(hw, key, st0) && hw.Lawful() && |prog| == PROG_INSTR
    ensures Returned(hw, key, prog, st0, st')
    ensures exists fuel: nat :: Run(hw, Bytes(prog), 0, st0, fuel) == Halted(st')
  {
    hide EncodeAll, Top, BranchAt, RetAt, Bytes, AtTop, Hw.Lawful, Reaches, Returned, StepAt, Run, Entry;
    var st2 := AfterIterations(hw, key, prog, st0, 1024);
    st' := ReachEpilogue(hw, key, prog, st0, st2);
    ReachTrans(hw, Bytes(prog), 0, st0, BranchAt(prog) + 4, st2, RetAt(prog), st');
    ReturnedOk(hw, key, prog, st0, st');
    HaltAtRet(hw, prog, st');
    Halts(hw, Bytes(prog), 0, st0, RetAt(prog), st');
  }

  /** The emitted size: prologue, table, epilogue. */
  lemma CodeSize(prog: seq<Instr>)
    ensures |Bytes(prog)| == 192 + BodyLen(prog) + 72
    ensures BranchAt(prog) + 4 * BranchBack(prog).off == Top() == 192
  {
    hide EncodeAll, Prologue, Body, Tail;
    PlainPrologue();
    PlainBody(prog);
    PlainTail();
  }
}
