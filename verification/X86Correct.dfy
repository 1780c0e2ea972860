/** The emitted x86-64 program, run from its bytes, computes the digest. */
module X86Correct {
  import opened Hardware
  import opened Isochron
  import opened X86
  import opened X86Bytes
  import opened X86Compile
  import opened X86Program
  import opened X86Run
  import opened X86Fetch

  // ----- every slot and every fixed part can be encoded and runs straight through -----

  predicate Plain(code: seq<XInstr>) { AllEncodable(code) && Straight(code) }

  lemma PlainAppend(a: seq<XInstr>, b: seq<XInstr>)
    requires Plain(a) && Plain(b)
    ensures Plain(a + b)
  {
  }

  lemma PlainAddr(src: XReg, k: bv32, mask: bv32, tmp: XReg)
    requires tmp < 8
    ensures Plain(Addr(src, k, mask, tmp))
  {
  }

  lemma PlainArithSlot(slot: Instr)
    requires slot.op in {Add, Sub, Xor, Or, And}
    ensures Plain(SlotCode(slot))
  {
    hide Pin;
  }

  lemma PlainRotateSlot(slot: Instr)
    requires slot.op in {Rolx, Rola, Rorx, Rora, Vrol, Vror}
    ensures Plain(SlotCode(slot))
  {
    hide Pin;
  }

  lemma PlainWideSlot(slot: Instr)
    requires slot.op in {Andn, Mullo, Mulhi}
    ensures Plain(SlotCode(slot))
  {
    hide Pin;
  }

  lemma PlainMemorySlot(slot: Instr)
    requires slot.op in {Load, Loadb, Store, Storeb, Aesr}
    ensures Plain(SlotCode(slot))
  {
    hide Addr, Pin, Plain;
    var d, s, k := Pin(slot.d), Pin(slot.s), AddrKey(slot.op, slot.imm);
    PlainAddr(s, k, SCRATCH_MASK, RCX);
    PlainAddr(d, k, SCRATCH_MASK, RCX);
    PlainAddr(s, k, LINE_MASK, RCX);
    PlainAccess(d, s);
    if slot.op in {Load, Loadb} {
      PlainAppend(Addr(s, k, SCRATCH_MASK, RCX), [Mem(XorLoad, d)]);
    } else if slot.op in {Store, Storeb} {
      PlainAppend(Addr(d, k, SCRATCH_MASK, RCX), [Mem(AddStore, s)]);
    } else {
      PlainAppend(Addr(s, k, LINE_MASK, RCX), LineCode(d));
    }
  }

  lemma PlainAccess(d: XReg, s: XReg)
    ensures Plain([Mem(XorLoad, d)]) && Plain([Mem(AddLoad, d)]) && Plain([Mem(AddStore, s)])
    ensures Plain(LineCode(d)) && Plain(UpdateCode(AluAdd, d)) && Plain(UpdateCode(AluXor, d))
  {
  }

  lemma PlainUpdateSlot(slot: Instr)
    requires slot.op in {Rmw, Rmwb}
    ensures Plain(SlotCode(slot))
  {
    hide Addr, Pin, Plain, UpdateCode;
    var d, s, k := Pin(slot.d), Pin(slot.s), AddrKey(slot.op, slot.imm);
    var op, k2 := if slot.op == Rmw then AluAdd else AluXor, if slot.op == Rmw then C2 else C1;
    var m := Mem(if slot.op == Rmw then XorLoad else AddLoad, d);
    var a, b, c := Addr(s, k, SCRATCH_MASK, RCX), UpdateCode(op, d), Addr(RCX, k2, SCRATCH_MASK, RDX);
    PlainAddr(s, k, SCRATCH_MASK, RCX);
    PlainAddr(RCX, k2, SCRATCH_MASK, RDX);
    PlainAccess(d, s);
    PlainAppend(a, b);
    PlainAppend(a + b, c);
    PlainAppend(a + b + c, [m]);
  }

  lemma PlainSlot(slot: Instr)
    ensures Plain(SlotCode(slot))
  {
    hide Plain, SlotCode;
    match slot.op {
      case Add | Sub | Xor | Or | And => PlainArithSlot(slot);
      case Rolx | Rola | Rorx | Rora | Vrol | Vror => PlainRotateSlot(slot);
      case Andn | Mullo | Mulhi => PlainWideSlot(slot);
      case Rmw | Rmwb => PlainUpdateSlot(slot);
      case Load | Loadb | Store | Storeb | Aesr => PlainMemorySlot(slot);
    }
  }

  lemma {:induction false} PlainBody(prog: seq<Instr>)
    ensures Plain(Body(prog))
  {
    hide SlotCode;
    if prog != [] {
      PlainBody(prog[..|prog| - 1]);
      PlainSlot(prog[|prog| - 1]);
      PlainAppend(Body(prog[..|prog| - 1]), SlotCode(prog[|prog| - 1]));
    }
  }

  lemma {:induction false} PlainInit(n: nat)
    requires n <= 8
    ensures Plain(InitCode(n))
  {
    if n > 0 {
      PlainInit(n - 1);
      PlainAppend(InitCode(n - 1), InitOne(n - 1));
    }
  }

  lemma {:induction false} PlainFold(n: nat)
    requires 1 <= n <= 8
    ensures Plain(FoldCode(n))
  {
    if n > 1 {
      PlainFold(n - 1);
      PlainAppend(FoldCode(n - 1), [Alu(AluXor, RAX, Pin(n - 1))]);
    }
  }

  lemma PlainPrologue()
    ensures Plain(Prologue())
  {
    PlainInit(8);
    PlainAppend(SaveCode(), [MovImm64(R11, MULT), LoadKey]);
    PlainAppend(SaveCode() + [MovImm64(R11, MULT), LoadKey], InitCode(8));
    PlainAppend(SaveCode() + [MovImm64(R11, MULT), LoadKey] + InitCode(8), [ClearR10]);
  }

  // ----- the whole program -----

  function LoopCode(prog: seq<Instr>): seq<XInstr> { Body(prog) + LoopEnd() }

  /** The conditional jump from its own end back to the top of the loop. */
  function JumpBack(prog: seq<Instr>): XInstr { Jl(0 - |EncodeAll(LoopCode(prog))| - 6) }

  function Tail(): seq<XInstr> { FoldCode(8) + RestoreCode() }

  function BeforeTail(prog: seq<Instr>): seq<XInstr> { Prologue() + LoopCode(prog) + [JumpBack(prog)] }

  function Code(prog: seq<Instr>): seq<XInstr> { BeforeTail(prog) + Tail() + [Ret] }

  /** The bytes the compiler writes. */
  function Bytes(prog: seq<Instr>): seq<bv8> { EncodeAll(Code(prog)) }

  lemma {:induction false} BodyBytes(prog: seq<Instr>)
    ensures |EncodeAll(Body(prog))| <= 63 * |prog|
  {
    hide SlotCode, EncodeAll;
    if prog == [] {
      CodeLength([]);
    } else {
      BodyBytes(prog[..|prog| - 1]);
      SlotBytes(prog[|prog| - 1]);
      EncodeAppend(Body(prog[..|prog| - 1]), SlotCode(prog[|prog| - 1]));
    }
  }

  lemma BackInRange(prog: seq<Instr>)
    requires |prog| == PROG_INSTR
    ensures Encodable(JumpBack(prog))
  {
    hide EncodeAll, Body, LoopEnd;
    BodyBytes(prog);
    EncodeAppend(Body(prog), LoopEnd());
    LoopEndShort();
  }

  lemma LoopEndShort()
    ensures |EncodeAll(LoopEnd())| <= 64
  {
    hide EncodeAll;
    CodeLength(LoopEnd());
    CodeLenShort(LoopEnd());
  }

  function Top(): nat { |EncodeAll(Prologue())| }

  function JumpAt(prog: seq<Instr>): nat { |EncodeAll(Prologue() + LoopCode(prog))| }

  function LoopExit(prog: seq<Instr>): nat { JumpAt(prog) + 6 }

  function RetAt(prog: seq<Instr>): nat { |EncodeAll(BeforeTail(prog) + Tail())| }

  /** The jump at the end of an iteration lands on the top of the loop, or falls through. */
  lemma TakeJump(hw: Hw, prog: seq<Instr>, st: XState, again: bool)
    requires st.Valid() && st.lt == Known(again) && |prog| == PROG_INSTR
    ensures Reaches(hw, Bytes(prog), JumpAt(prog), st,
                    if again then Top() else LoopExit(prog), st.(lt := Undefined))
  {
    hide EncodeAll, Encode, Decode, Prologue, LoopCode, Tail, Encodable;
    var front, jl, back := Prologue() + LoopCode(prog), JumpBack(prog), Tail() + [Ret];
    BackInRange(prog);
    assert Code(prog) == front + [jl] + back;
    FetchNext(front, jl, back);
    EncodedLength(jl);
    EncodeAppend(Prologue(), LoopCode(prog));
    ReachStep(hw, Bytes(prog), |EncodeAll(front)|, st, if again then Top() else LoopExit(prog), st.(lt := Undefined));
  }

  lemma OneIteration(hw: Hw, key: Block, prog: seq<Instr>, st0: XState, st: XState, n: nat) returns (st': XState)
    requires AtTop(hw, key, prog, st0, st, n) && hw.Lawful() && n < 1024 && |prog| == PROG_INSTR
    ensures AtTop(hw, key, prog, st0, st', n + 1)
    ensures Reaches(hw, Bytes(prog), Top(), st, if n + 1 < 1024 then Top() else LoopExit(prog), st')
  {
    hide EncodeAll, ExecAll, Prologue, Body, LoopEnd, Tail, Plain, AtTop, Hw.Lawful, JumpBack, Reaches;
    var front, back := Prologue(), [JumpBack(prog)] + (Tail() + [Ret]);
    var st1 := RunIteration(hw, key, prog, st0, st, n);
    st' := st1.(lt := Undefined);
    PlainLoop(prog);
    AtTopValid(hw, key, prog, st0, st, n);
    RunStraight(hw, front, LoopCode(prog), back, st);
    assert Code(prog) == front + LoopCode(prog) + back;
    assert JumpAt(prog) == |EncodeAll(front + LoopCode(prog))|;
    TakeJump(hw, prog, st1, n + 1 < 1024);
    ReachTrans(hw, Bytes(prog), Top(), st, JumpAt(prog), st1,
               if n + 1 < 1024 then Top() else LoopExit(prog), st');
  }

  lemma AtTopValid(hw: Hw, key: Block, prog: seq<Instr>, st0: XState, st: XState, n: nat)
    requires AtTop(hw, key, prog, st0, st, n)
    ensures st.Valid()
  {
  }

  lemma PlainLoop(prog: seq<Instr>)
    ensures Plain(LoopCode(prog)) && AllEncodable(LoopCode(prog)) && Straight(LoopCode(prog))
  {
    hide Body;
    PlainBody(prog);
    PlainAppend(Body(prog), LoopEnd());
  }

  lemma ReachPrologue(hw: Hw, key: Block, prog: seq<Instr>, st0: XState) returns (st: XState)
    requires Entry(hw, key, st0) && hw.Lawful()
    ensures AtTop(hw, key, prog, st0, st, 0) && Reaches(hw, Bytes(prog), 0, st0, Top(), st)
  {
    hide EncodeAll, ExecAll, Prologue, LoopCode, Tail, JumpBack, Hw.ImmediateLaws, Hw.BitwiseLaws, Hw.CounterLaws,
      Hw.RotationLaws, Hw.MaskLaws, Hw.AesLaws;
    st := RunPrologue(hw, key, prog, st0);
    PlainPrologue();
    var rest := LoopCode(prog) + [JumpBack(prog)] + (Tail() + [Ret]);
    RunStraight(hw, [], Prologue(), rest, st0);
    assert [] + Prologue() + rest == Code(prog);
    assert [] + Prologue() == Prologue();
    CodeLength([]);
  }

  /** From the first byte: after n iterations the machine is at the top of the loop, or past it
      after the last. */
  lemma {:induction false} AfterIterations(hw: Hw, key: Block, prog: seq<Instr>, st0: XState, n: nat)
      returns (st: XState)
    requires Entry(hw, key, st0) && hw.Lawful() && |prog| == PROG_INSTR && n <= 1024
    ensures AtTop(hw, key, prog, st0, st, n)
    ensures Reaches(hw, Bytes(prog), 0, st0, if n < 1024 then Top() else LoopExit(prog), st)
  {
    hide EncodeAll, Top, LoopExit, Bytes, AtTop, Hw.Lawful, Reaches, Entry;
    if n == 0 {
      st := ReachPrologue(hw, key, prog, st0);
    } else {
      var before := AfterIterations(hw, key, prog, st0, n - 1);
      st := OneIteration(hw, key, prog, st0, before, n - 1);
      ReachTrans(hw, Bytes(prog), 0, st0, Top(), before, if n < 1024 then Top() else LoopExit(prog), st);
    }
  }

  lemma ReachEpilogue(hw: Hw, key: Block, prog: seq<Instr>, st0: XState, st: XState) returns (st': XState)
    requires AtTop(hw, key, prog, st0, st, 1024) && hw.Lawful()
    ensures Returned(hw, key, prog, st0, st')
    ensures Reaches(hw, Bytes(prog), LoopExit(prog), st, RetAt(prog), st')
  {
    hide EncodeAll, ExecAll, Prologue, LoopCode, JumpBack, Encode, Returned, FoldCode, RestoreCode,
      Hw.ImmediateLaws, Hw.BitwiseLaws, Hw.CounterLaws, Hw.RotationLaws, Hw.MaskLaws, Hw.AesLaws;
    st' := RunEpilogue(hw, key, prog, st0, st);
    ReturnedOk(hw, key, prog, st0, st');
    PlainTail();
    EncodeAppend(Prologue() + LoopCode(prog), [JumpBack(prog)]);
    EncodeOne(JumpBack(prog));
    EncodedLength(JumpBack(prog));
    JumpBackIsJl(prog);
    RunStraight(hw, BeforeTail(prog), Tail(), [Ret], st);
  }

  lemma JumpBackIsJl(prog: seq<Instr>)
    ensures JumpBack(prog).Jl?
  {
    hide EncodeAll;
  }

  lemma ReturnedOk(hw: Hw, key: Block, prog: seq<Instr>, st0: XState, st: XState)
    requires Returned(hw, key, prog, st0, st)
    ensures st.ok
  {
  }

  lemma PlainTail()
    ensures Plain(Tail())
  {
    PlainFold(8);
    PlainAppend(FoldCode(8), RestoreCode());
  }

  lemma HaltAtRet(hw: Hw, prog: seq<Instr>, st: XState)
    requires st.Valid()
    ensures StepAt(hw, Bytes(prog), RetAt(prog), st) == Halted(st)
  {
    hide EncodeAll, Encode, Decode, BeforeTail, Tail, Exec;
    FetchNext(BeforeTail(prog) + Tail(), Ret, []);
    assert BeforeTail(prog) + Tail() + [Ret] + [] == Code(prog);
  }

  lemma Halts(hw: Hw, bytes: seq<bv8>, pc: nat, st: XState, pc': nat, st': XState)
    requires Reaches(hw, bytes, pc, st, pc', st') && StepAt(hw, bytes, pc', st') == Halted(st')
    ensures exists fuel: nat :: Run(hw, bytes, pc, st, fuel) == Halted(st')
  {
    hide StepAt;
    var f: nat :| Run(hw, bytes, pc, st, f) == Running(pc', st');
    RunSplit(hw, bytes, pc, st, f, 1);
    assert Run(hw, bytes, pc', st', 1) == Halted(st');
  }

  /** Called with the pad, key and seed in their registers, the bytes emitted for any program
      run to their return without leaving the pad, with the compiled digest in rax, the
      compiled final pad in memory, and the caller's registers and stack restored. */
  lemma X86RunsProgram(hw: Hw, key: Block, prog: seq<Instr>, st0: XState) returns (st': XState)
    requires Entry(hw, key, st0) && hw.Lawful() && |prog| == PROG_INSTR
    ensures Returned(hw, key, prog, st0, st')
    ensures exists fuel: nat :: Run(hw, Bytes(prog), 0, st0, fuel) == Halted(st')
  {
    hide EncodeAll, Top, LoopExit, RetAt, Bytes, AtTop, Hw.Lawful, Reaches, Returned, StepAt, Run, Entry;
    var st2 := AfterIterations(hw, key, prog, st0, 1024);
    st' := ReachEpilogue(hw, key, prog, st0, st2);
    ReachTrans(hw, Bytes(prog), 0, st0, LoopExit(prog), st2, RetAt(prog), st');
    ReturnedValid(hw, key, prog, st0, st');
    HaltAtRet(hw, prog, st');
    Halts(hw, Bytes(prog), 0, st0, RetAt(prog), st');
  }

  lemma ReturnedValid(hw: Hw, key: Block, prog: seq<Instr>, st0: XState, st: XState)
    requires Returned(hw, key, prog, st0, st)
    ensures st.Valid()
  {
  }
}
