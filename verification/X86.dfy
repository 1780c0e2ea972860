/** The subset of x86-64 the compiler emits, as a machine over registers and the pad. */
module X86 {
  import opened Hardware
  import opened Isochron

  type XReg = n: nat | n < 16

  const RAX: XReg := 0
  const RCX: XReg := 1
  const RDX: XReg := 2
  const RSI: XReg := 6
  const R10: XReg := 10
  const R11: XReg := 11

  datatype AluOp = AluAdd | AluSub | AluXor | AluOr | AluAnd | AluMov

  /** Operations between a register and the word at [rdi + rax]. */
  datatype MemOp = XorLoad | AddLoad | MovLoad | AddStore | MovStore

  datatype XInstr =
    | Alu(op: AluOp, dst: XReg, src: XReg)
    | AddImm(dst: XReg, imm: bv32)
    | OrImm8(dst: XReg, imm8: bv8)
    | MovImm64(dst: XReg, imm64: bv64)
    | MovImm32(dst: XReg, imm: bv32)
    | RotImm(right: bool, dst: XReg, k: bv8)
    | RotCl(right: bool, dst: XReg)
    | ShrImm(dst: XReg, k: bv8)
    | Not(dst: XReg)
    | Imul(dst: XReg, src: XReg)
    | ImulImm(dst: XReg, src: XReg, imm: bv32)
    | MulRax(src: XReg)
    | Mem(mop: MemOp, reg: XReg)
    | AndEax(imm: bv32)
    | LoadKey
    | LoadLine
    | AesEncLine
    | StoreLine
    | MovqRcx
    | Push(reg: XReg)
    | Pop(reg: XReg)
    | ClearR10
    | IncR10
    | CmpR10(imm: bv32)
    | Jl(rel: int)
    | Ret

  /** `ok` turns false on an access outside the pad, a misaligned one, a stack underflow,
      or a conditional jump whose flags an earlier instruction has clobbered. */
  datatype XState = XState(
    r: seq<Word>, x0: Block, x1: Block, pad: seq<Word>,
    padBase: Word, keyBase: Word, key: Block,
    stack: seq<Word>, lt: Flag, ok: bool)
  {
    predicate Valid() { |r| == 16 && |pad| == 8192 }

    function Set(d: XReg, v: Word): XState
      requires Valid()
    {
      this.(r := r[d := v])
    }
  }

  datatype Flag = Undefined | Known(value: bool)

  function AluValue(hw: Hw, op: AluOp, x: Word, y: Word): Word {
    match op
    case AluAdd => hw.add(x, y)
    case AluSub => hw.sub(x, y)
    case AluXor => hw.xor(x, y)
    case AluOr => hw.or(x, y)
    case AluAnd => hw.and(x, y)
    case AluMov => y
  }

  function Rotate(hw: Hw, right: bool, x: Word, y: Word): Word {
    if right then hw.ror(x, y) else hw.rol(x, y)
  }

  /** Whether [rdi + rax] is an aligned access of the given size inside the pad. */
  predicate InPad(hw: Hw, st: XState, size: nat)
    requires st.Valid() && size > 0
  {
    st.r[7] == st.padBase && hw.value(st.r[0]) < SCRATCH_BYTES && hw.value(st.r[0]) % size == 0
  }

  function ExecMem(hw: Hw, mop: MemOp, reg: XReg, st: XState): (st': XState)
    requires st.Valid()
    ensures st'.Valid()
  {
    if !InPad(hw, st, 8) then st.(ok := false)
    else
      var w := hw.value(st.r[0]) / 8;
      match mop
      case XorLoad => st.Set(reg, hw.xor(st.r[reg], st.pad[w]))
      case AddLoad => st.Set(reg, hw.add(st.r[reg], st.pad[w]))
      case MovLoad => st.Set(reg, st.pad[w])
      case AddStore => st.(pad := st.pad[w := hw.add(st.pad[w], st.r[reg])])
      case MovStore => st.(pad := st.pad[w := st.r[reg]])
  }

  function ExecLine(hw: Hw, store: bool, st: XState): (st': XState)
    requires st.Valid()
    ensures st'.Valid()
  {
    if !InPad(hw, st, 16) then st.(ok := false)
    else
      var w := hw.value(st.r[0]) / 8;
      if store then st.(pad := st.pad[w := st.x1.lo][w + 1 := st.x1.hi])
      else st.(x1 := Block(st.pad[w], st.pad[w + 1]))
  }

  /** AESENC: ShiftRows, SubBytes, MixColumns, then the round key. */
  function AesEncInstr(hw: Hw, b: Block, key: Block): Block {
    hw.xorBlock(hw.mixColumns(hw.subBytes(hw.shiftRows(b))), key)
  }

  /** Everything but the jump and the return. Each instruction leaves the flags undefined
      except the compare. */
  function Exec(hw: Hw, i: XInstr, st0: XState): (st': XState)
    requires st0.Valid()
    ensures st'.Valid()
  {
    var st := st0.(lt := Undefined);
    match i
    case Alu(op, dst, src) => st.Set(dst, AluValue(hw, op, st.r[dst], st.r[src]))
    case AddImm(dst, imm) => st.Set(dst, hw.add(st.r[dst], hw.sx(imm)))
    case OrImm8(dst, imm8) => st.Set(dst, hw.or(st.r[dst], hw.sx(Hw.SignExtended(imm8))))
    case MovImm64(dst, imm) => st.Set(dst, hw.imm64(imm))
    case MovImm32(dst, imm) => st.Set(dst, hw.zx(imm))
    case RotImm(right, dst, k) => st.Set(dst, Rotate(hw, right, st.r[dst], hw.Zx8(k)))
    case RotCl(right, dst) => st.Set(dst, Rotate(hw, right, st.r[dst], st.r[1]))
    case ShrImm(dst, k) => st.Set(dst, hw.shr(st.r[dst], k))
    case Not(dst) => st.Set(dst, hw.not(st.r[dst]))
    case Imul(dst, src) => st.Set(dst, hw.mul(st.r[dst], st.r[src]))
    case ImulImm(dst, src, imm) => st.Set(dst, hw.mul(st.r[src], hw.sx(imm)))
    case MulRax(src) =>
      st.Set(0, hw.mul(st.r[0], st.r[src])).Set(2, hw.mulHi(st.r[0], st.r[src]))
    case Mem(mop, reg) => ExecMem(hw, mop, reg, st)
    case AndEax(imm) => st.Set(0, hw.and32(st.r[0], imm))
    case LoadKey => if st.r[2] == st.keyBase then st.(x0 := st.key) else st.(ok := false)
    case LoadLine => ExecLine(hw, false, st)
    case AesEncLine => st.(x1 := AesEncInstr(hw, st.x1, st.x0))
    case StoreLine => ExecLine(hw, true, st)
    case MovqRcx => st.Set(1, st.x1.lo)
    case Push(reg) => st.(stack := st.stack + [st.r[reg]])
    case Pop(reg) =>
      if st.stack == [] then st.(ok := false)
      else st.Set(reg, st.stack[|st.stack| - 1]).(stack := st.stack[..|st.stack| - 1])
    case ClearR10 => st.Set(10, hw.Zero())
    case IncR10 => st.Set(10, hw.add(st.r[10], hw.zx(1)))
    case CmpR10(imm) => st.(lt := Known(hw.less(st.r[10], hw.sx(imm))))
    case Jl(_) => st.(ok := false)
    case Ret => st.(ok := false)
  }

  function ExecAll(hw: Hw, code: seq<XInstr>, st: XState): (st': XState)
    requires st.Valid()
    ensures st'.Valid()
  {
    if code == [] then st else ExecAll(hw, code[1..], Exec(hw, code[0], st))
  }

  lemma {:induction false} ExecAppend(hw: Hw, a: seq<XInstr>, b: seq<XInstr>, st: XState)
    requires st.Valid()
    ensures ExecAll(hw, a + b, st) == ExecAll(hw, b, ExecAll(hw, a, st))
  {
    hide Exec;
    if a == [] {
      assert a + b == b;
    } else {
      assert (a + b)[1..] == a[1..] + b;
      ExecAppend(hw, a[1..], b, Exec(hw, a[0], st));
    }
  }

  // ----- single instructions, as equations -----

  lemma DoAlu(hw: Hw, op: AluOp, dst: XReg, src: XReg, st: XState) returns (st': XState)
    requires st.Valid()
    ensures st' == Exec(hw, Alu(op, dst, src), st)
         == st.(r := st.r[dst := AluValue(hw, op, st.r[dst], st.r[src])], lt := Undefined)
  {
    st' := Exec(hw, Alu(op, dst, src), st);
  }

  lemma DoMovImm(hw: Hw, dst: XReg, imm: bv32, st: XState) returns (st': XState)
    requires st.Valid()
    ensures st' == Exec(hw, MovImm32(dst, imm), st) == st.(r := st.r[dst := hw.zx(imm)], lt := Undefined)
  {
    st' := Exec(hw, MovImm32(dst, imm), st);
  }

  lemma DoRot(hw: Hw, right: bool, dst: XReg, k: bv8, st: XState) returns (st': XState)
    requires st.Valid()
    ensures st' == Exec(hw, RotImm(right, dst, k), st)
         == st.(r := st.r[dst := Rotate(hw, right, st.r[dst], hw.Zx8(k))], lt := Undefined)
  {
    st' := Exec(hw, RotImm(right, dst, k), st);
  }

  lemma DoRotCl(hw: Hw, right: bool, dst: XReg, st: XState) returns (st': XState)
    requires st.Valid()
    ensures st' == Exec(hw, RotCl(right, dst), st)
         == st.(r := st.r[dst := Rotate(hw, right, st.r[dst], st.r[1])], lt := Undefined)
  {
    st' := Exec(hw, RotCl(right, dst), st);
  }

  lemma DoNot(hw: Hw, dst: XReg, st: XState) returns (st': XState)
    requires st.Valid()
    ensures st' == Exec(hw, Not(dst), st) == st.(r := st.r[dst := hw.not(st.r[dst])], lt := Undefined)
  {
    st' := Exec(hw, Not(dst), st);
  }

  lemma DoOrOne(hw: Hw, dst: XReg, st: XState) returns (st': XState)
    requires st.Valid() && hw.ImmediateLaws()
    ensures st' == Exec(hw, OrImm8(dst, 1), st) == st.(r := st.r[dst := hw.or(st.r[dst], hw.Zx8(1))], lt := Undefined)
  {
    assert Hw.SignExtended(1) == 1;
    assert hw.sx(1) == hw.zx(1);
    st' := Exec(hw, OrImm8(dst, 1), st);
  }

  lemma DoImul(hw: Hw, dst: XReg, src: XReg, st: XState) returns (st': XState)
    requires st.Valid()
    ensures st' == Exec(hw, Imul(dst, src), st)
         == st.(r := st.r[dst := hw.mul(st.r[dst], st.r[src])], lt := Undefined)
  {
    st' := Exec(hw, Imul(dst, src), st);
  }

  lemma DoMulRax(hw: Hw, src: XReg, st: XState) returns (st': XState)
    requires st.Valid()
    ensures st' == Exec(hw, MulRax(src), st)
         == st.(r := st.r[0 := hw.mul(st.r[0], st.r[src])][2 := hw.mulHi(st.r[0], st.r[src])], lt := Undefined)
  {
    st' := Exec(hw, MulRax(src), st);
  }

  lemma DoShr(hw: Hw, dst: XReg, k: bv8, st: XState) returns (st': XState)
    requires st.Valid()
    ensures st' == Exec(hw, ShrImm(dst, k), st) == st.(r := st.r[dst := hw.shr(st.r[dst], k)], lt := Undefined)
  {
    st' := Exec(hw, ShrImm(dst, k), st);
  }

  lemma DoAndEax(hw: Hw, mask: bv32, st: XState) returns (st': XState)
    requires st.Valid() && hw.BitwiseLaws()
    ensures st' == Exec(hw, AndEax(mask), st)
         == st.(r := st.r[0 := hw.and(st.r[0], hw.zx(mask))], lt := Undefined)
  {
    st' := Exec(hw, AndEax(mask), st);
  }

  lemma DoMem(hw: Hw, mop: MemOp, reg: XReg, st: XState) returns (st': XState)
    requires st.Valid()
    ensures st' == Exec(hw, Mem(mop, reg), st) == ExecMem(hw, mop, reg, st.(lt := Undefined))
  {
    st' := Exec(hw, Mem(mop, reg), st);
  }

  lemma DoAes(hw: Hw, st: XState) returns (st': XState)
    requires st.Valid() && InPad(hw, st, 16)
    ensures st' == ExecAll(hw, [LoadLine, AesEncLine, StoreLine], st)
    ensures var w := hw.value(st.r[0]) / 8;
            var b := AesEncInstr(hw, Block(st.pad[w], st.pad[w + 1]), st.x0);
            st' == st.(x1 := b, pad := st.pad[w := b.lo][w + 1 := b.hi], lt := Undefined)
  {
    ExecThree(hw, LoadLine, AesEncLine, StoreLine, st);
    st' := ExecAll(hw, [LoadLine, AesEncLine, StoreLine], st);
  }

  lemma DoMovq(hw: Hw, st: XState) returns (st': XState)
    requires st.Valid()
    ensures st' == Exec(hw, MovqRcx, st) == st.(r := st.r[1 := st.x1.lo], lt := Undefined)
  {
    st' := Exec(hw, MovqRcx, st);
  }

  // ----- short sequences -----

  lemma ExecOne(hw: Hw, a: XInstr, st: XState)
    requires st.Valid()
    ensures ExecAll(hw, [a], st) == Exec(hw, a, st)
  {
    hide Exec;
    assert [a][1..] == [];
  }

  lemma ExecTwo(hw: Hw, a: XInstr, b: XInstr, st: XState)
    requires st.Valid()
    ensures ExecAll(hw, [a, b], st) == Exec(hw, b, Exec(hw, a, st))
  {
    hide Exec;
    assert [a, b] == [a] + [b];
    ExecAppend(hw, [a], [b], st);
    ExecOne(hw, a, st);
    ExecOne(hw, b, Exec(hw, a, st));
  }

  lemma ExecThree(hw: Hw, a: XInstr, b: XInstr, c: XInstr, st: XState)
    requires st.Valid()
    ensures ExecAll(hw, [a, b, c], st) == Exec(hw, c, Exec(hw, b, Exec(hw, a, st)))
  {
    hide Exec;
    assert [a, b, c] == [a, b] + [c];
    ExecAppend(hw, [a, b], [c], st);
    ExecTwo(hw, a, b, st);
    ExecOne(hw, c, Exec(hw, b, Exec(hw, a, st)));
  }

  lemma ExecFour(hw: Hw, a: XInstr, b: XInstr, c: XInstr, d: XInstr, st: XState)
    requires st.Valid()
    ensures ExecAll(hw, [a, b] + [c, d], st) == Exec(hw, d, Exec(hw, c, Exec(hw, b, Exec(hw, a, st))))
  {
    hide Exec;
    ExecAppend(hw, [a, b], [c, d], st);
    ExecTwo(hw, a, b, st);
    ExecTwo(hw, c, d, Exec(hw, b, Exec(hw, a, st)));
  }

  lemma ExecSix(hw: Hw, a: XInstr, b: XInstr, c: XInstr, d: XInstr, e: XInstr, f: XInstr, st: XState)
    requires st.Valid()
    ensures ExecAll(hw, [a, b, c] + [d, e, f], st)
         == Exec(hw, f, Exec(hw, e, Exec(hw, d, Exec(hw, c, Exec(hw, b, Exec(hw, a, st))))))
  {
    hide Exec;
    ExecAppend(hw, [a, b, c], [d, e, f], st);
    ExecThree(hw, a, b, c, st);
    ExecThree(hw, d, e, f, Exec(hw, c, Exec(hw, b, Exec(hw, a, st))));
  }
}
