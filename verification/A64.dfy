/** The subset of A64 the second compiler emits, as a machine over registers and the pad. */
module A64 {
  import opened Hardware
  import opened Isochron

  /** Register 31 is the zero register in every form modelled as running. */
  type AReg = n: nat | n < 32

  datatype Op3 = AndR | BicR | OrrR | EorR | AddR | SubR | RorR | MulR | UmulhR

  datatype AInstr =
    | Alu(op: Op3, d: AReg, n: AReg, m: AReg)
    | AddImm(d: AReg, n: AReg, imm: bv32)
    | CmpImm(n: AReg, imm: bv32)
    | Movz(d: AReg, v: bv16)
    | Movk(d: AReg, v: bv16, lane: nat)
    | RorImm(d: AReg, n: AReg, k: bv8)
    | LsrImm(d: AReg, n: AReg, k: bv8)
    | OrrOne(d: AReg, n: AReg)
    | Ldr(d: AReg, base: AReg, idx: AReg)
    | Str(d: AReg, base: AReg, idx: AReg)
    | LdrQ(t: AReg, base: AReg, idx: AReg)
    | StrQ(t: AReg, base: AReg, idx: AReg)
    | LdrQAt(t: AReg, base: AReg)
    | Aese(t: AReg, vn: AReg)
    | Aesmc(t: AReg, vn: AReg)
    | Veor(t: AReg, vn: AReg, vm: AReg)
    | MoviZero(t: AReg)
    | UmovLo(d: AReg, vn: AReg)
    | StpPre(t1: AReg, t2: AReg)
    | LdpPost(t1: AReg, t2: AReg)
    | BLt(off: int)
    | Ret

  datatype Flag = Undefined | Known(value: bool)

  /** `ok` turns false on an access outside the pad, a misaligned one, a stack underflow, or
      a form whose register 31 would be the stack pointer. */
  datatype AState = AState(
    r: seq<Word>, v: seq<Block>, pad: seq<Word>,
    padBase: Word, keyBase: Word, key: Block,
    stack: seq<Word>, lt: Flag, ok: bool)
  {
    predicate Valid() { |r| == 31 && |v| == 32 && |pad| == 8192 }

    function Get(hw: Hw, n: AReg): Word
      requires Valid()
    {
      if n == 31 then hw.Zero() else r[n]
    }

    function Set(d: AReg, x: Word): (st': AState)
      requires Valid()
      ensures st'.Valid()
    {
      if d == 31 then this else this.(r := r[d := x])
    }

    function Fault(): (st': AState)
      requires Valid()
      ensures st'.Valid()
    {
      this.(ok := false)
    }
  }

  function Value3(hw: Hw, op: Op3, x: Word, y: Word): Word {
    match op
    case AndR => hw.and(x, y)
    case BicR => hw.and(x, hw.not(y))
    case OrrR => hw.or(x, y)
    case EorR => hw.xor(x, y)
    case AddR => hw.add(x, y)
    case SubR => hw.sub(x, y)
    case RorR => hw.ror(x, y)
    case MulR => hw.mul(x, y)
    case UmulhR => hw.mulHi(x, y)
  }

  /** Whether [base + idx] is an aligned access of the given size inside the pad. */
  predicate InPad(hw: Hw, st: AState, base: AReg, idx: AReg, size: nat)
    requires st.Valid() && size > 0
  {
    && base != 31 && st.r[base] == st.padBase
    && hw.value(st.Get(hw, idx)) < SCRATCH_BYTES && hw.value(st.Get(hw, idx)) % size == 0
  }

  /** AESE: add the key operand, then ShiftRows and SubBytes. */
  function AeseValue(hw: Hw, b: Block, key: Block): Block { hw.subBytes(hw.shiftRows(hw.xorBlock(b, key))) }

  function ExecWord(hw: Hw, i: AInstr, st: AState): (st': AState)
    requires st.Valid()
    ensures st'.Valid()
  {
    match i
    case Alu(op, d, n, m) => st.Set(d, Value3(hw, op, st.Get(hw, n), st.Get(hw, m)))
    case AddImm(d, n, imm) =>
      if d == 31 || n == 31 then st.Fault() else st.Set(d, hw.add(st.r[n], hw.zx(imm)))
    case CmpImm(n, imm) =>
      if n == 31 then st.Fault() else st.(lt := Known(hw.less(st.r[n], hw.zx(imm))))
    case Movz(d, v) => st.Set(d, hw.movz(v))
    case Movk(d, v, lane) => st.Set(d, hw.movk(st.Get(hw, d), v, lane))
    case RorImm(d, n, k) => st.Set(d, hw.ror(st.Get(hw, n), hw.Zx8(k)))
    case LsrImm(d, n, k) => st.Set(d, hw.shr(st.Get(hw, n), k))
    case OrrOne(d, n) => if d == 31 then st.Fault() else st.Set(d, hw.or(st.Get(hw, n), hw.Zx8(1)))
    case Ldr(t, base, idx) =>
      if InPad(hw, st, base, idx, 8) then st.Set(t, st.pad[hw.value(st.Get(hw, idx)) / 8]) else st.Fault()
    case Str(t, base, idx) =>
      if InPad(hw, st, base, idx, 8) then st.(pad := st.pad[hw.value(st.Get(hw, idx)) / 8 := st.Get(hw, t)])
      else st.Fault()
    case StpPre(t1, t2) => st.(stack := st.stack + [st.Get(hw, t2), st.Get(hw, t1)])
    case LdpPost(t1, t2) =>
      var n := |st.stack|;
      if n < 2 then st.Fault()
      else st.Set(t1, st.stack[n - 1]).Set(t2, st.stack[n - 2]).(stack := st.stack[..n - 2])
    case _ => st.Fault()
  }

  function ExecVector(hw: Hw, i: AInstr, st: AState): (st': AState)
    requires st.Valid()
    ensures st'.Valid()
  {
    match i
    case LdrQ(t, base, idx) =>
      if InPad(hw, st, base, idx, 16) then
        var w := hw.value(st.Get(hw, idx)) / 8;
        st.(v := st.v[t := Block(st.pad[w], st.pad[w + 1])])
      else st.Fault()
    case StrQ(t, base, idx) =>
      if InPad(hw, st, base, idx, 16) then
        var w := hw.value(st.Get(hw, idx)) / 8;
        st.(pad := st.pad[w := st.v[t].lo][w + 1 := st.v[t].hi])
      else st.Fault()
    case LdrQAt(t, base) =>
      if base != 31 && st.r[base] == st.keyBase then st.(v := st.v[t := st.key]) else st.Fault()
    case Aese(t, n) => st.(v := st.v[t := AeseValue(hw, st.v[t], st.v[n])])
    case Aesmc(t, n) => st.(v := st.v[t := hw.mixColumns(st.v[n])])
    case Veor(t, n, m) => st.(v := st.v[t := hw.xorBlock(st.v[n], st.v[m])])
    case MoviZero(t) => st.(v := st.v[t := hw.ZeroBlock()])
    case UmovLo(d, n) => st.Set(d, st.v[n].lo)
    case _ => st.Fault()
  }

  predicate IsVector(i: AInstr) {
    i.LdrQ? || i.StrQ? || i.LdrQAt? || i.Aese? || i.Aesmc? || i.Veor? || i.MoviZero? || i.UmovLo?
  }

  /** Everything but the branch and the return. */
  function Exec(hw: Hw, i: AInstr, st: AState): (st': AState)
    requires st.Valid()
    ensures st'.Valid()
  {
    if IsVector(i) then ExecVector(hw, i, st) else ExecWord(hw, i, st)
  }

  function ExecAll(hw: Hw, code: seq<AInstr>, st: AState): (st': AState)
    requires st.Valid()
    ensures st'.Valid()
  {
    if code == [] then st else ExecAll(hw, code[1..], Exec(hw, code[0], st))
  }

  lemma {:induction false} ExecAppend(hw: Hw, a: seq<AInstr>, b: seq<AInstr>, st: AState)
    requires st.Valid()
    ensures ExecAll(hw, a + b, st) == ExecAll(hw, b, ExecAll(hw, a, st))
  {
    hide Exec;
    if a == [] {
      assert a + b == b;
    } else {
      assert (a + b)[1..] == a[1..] + b;
      ExecAppend(hw, a[1..], b, Exec(hw, a[0], st));
    }
  }

  lemma ExecOne(hw: Hw, a: AInstr, st: AState)
    requires st.Valid()
    ensures ExecAll(hw, [a], st) == Exec(hw, a, st)
  {
    hide Exec;
    assert [a][1..] == [];
  }

  lemma ExecTwo(hw: Hw, a: AInstr, b: AInstr, st: AState)
    requires st.Valid()
    ensures ExecAll(hw, [a, b], st) == Exec(hw, b, Exec(hw, a, st))
  {
    hide Exec;
    assert [a, b] == [a] + [b];
    ExecAppend(hw, [a], [b], st);
    ExecOne(hw, a, st);
    ExecOne(hw, b, Exec(hw, a, st));
  }

  lemma ExecThree(hw: Hw, a: AInstr, b: AInstr, c: AInstr, st: AState)
    requires st.Valid()
    ensures ExecAll(hw, [a, b, c], st) == Exec(hw, c, Exec(hw, b, Exec(hw, a, st)))
  {
    hide Exec;
    assert [a, b, c] == [a, b] + [c];
    ExecAppend(hw, [a, b], [c], st);
    ExecTwo(hw, a, b, st);
    ExecOne(hw, c, Exec(hw, b, Exec(hw, a, st)));
  }

  // ----- single instructions, as equations -----

  lemma DoAlu(hw: Hw, op: Op3, d: AReg, n: AReg, m: AReg, st: AState) returns (st': AState)
    requires st.Valid() && d < 31
    ensures st' == Exec(hw, Alu(op, d, n, m), st)
         == st.(r := st.r[d := Value3(hw, op, st.Get(hw, n), st.Get(hw, m))])
  {
    st' := Exec(hw, Alu(op, d, n, m), st);
  }

  lemma DoRor(hw: Hw, d: AReg, k: bv8, st: AState) returns (st': AState)
    requires st.Valid() && d < 31
    ensures st' == Exec(hw, RorImm(d, d, k), st) == st.(r := st.r[d := hw.ror(st.r[d], hw.Zx8(k))])
  {
    st' := Exec(hw, RorImm(d, d, k), st);
  }

  lemma DoLsr(hw: Hw, d: AReg, k: bv8, st: AState) returns (st': AState)
    requires st.Valid() && d < 31
    ensures st' == Exec(hw, LsrImm(d, d, k), st) == st.(r := st.r[d := hw.shr(st.r[d], k)])
  {
    st' := Exec(hw, LsrImm(d, d, k), st);
  }

  lemma DoOrrOne(hw: Hw, d: AReg, n: AReg, st: AState) returns (st': AState)
    requires st.Valid() && d < 31 && n < 31
    ensures st' == Exec(hw, OrrOne(d, n), st) == st.(r := st.r[d := hw.or(st.r[n], hw.Zx8(1))])
  {
    st' := Exec(hw, OrrOne(d, n), st);
  }

  lemma DoLdr(hw: Hw, t: AReg, base: AReg, idx: AReg, st: AState) returns (st': AState)
    requires st.Valid() && t < 31 && idx < 31 && InPad(hw, st, base, idx, 8)
    ensures st' == Exec(hw, Ldr(t, base, idx), st) == st.(r := st.r[t := st.pad[hw.value(st.r[idx]) / 8]])
  {
    st' := Exec(hw, Ldr(t, base, idx), st);
  }

  lemma DoStr(hw: Hw, t: AReg, base: AReg, idx: AReg, st: AState) returns (st': AState)
    requires st.Valid() && t < 31 && idx < 31 && InPad(hw, st, base, idx, 8)
    ensures st' == Exec(hw, Str(t, base, idx), st) == st.(pad := st.pad[hw.value(st.r[idx]) / 8 := st.r[t]])
  {
    st' := Exec(hw, Str(t, base, idx), st);
  }

  lemma DoMovz(hw: Hw, d: AReg, v: bv16, st: AState) returns (st': AState)
    requires st.Valid() && d < 31
    ensures st' == Exec(hw, Movz(d, v), st) == st.(r := st.r[d := hw.movz(v)])
  {
    st' := Exec(hw, Movz(d, v), st);
  }

  lemma DoMovk(hw: Hw, d: AReg, v: bv16, lane: nat, st: AState) returns (st': AState)
    requires st.Valid() && d < 31
    ensures st' == Exec(hw, Movk(d, v, lane), st) == st.(r := st.r[d := hw.movk(st.r[d], v, lane)])
  {
    st' := Exec(hw, Movk(d, v, lane), st);
  }

  lemma DoUmov(hw: Hw, d: AReg, n: AReg, st: AState) returns (st': AState)
    requires st.Valid() && d < 31
    ensures st' == Exec(hw, UmovLo(d, n), st) == st.(r := st.r[d := st.v[n].lo])
  {
    st' := Exec(hw, UmovLo(d, n), st);
  }

  lemma DoLdrQ(hw: Hw, t: AReg, base: AReg, idx: AReg, st: AState) returns (st': AState)
    requires st.Valid() && idx < 31 && InPad(hw, st, base, idx, 16)
    ensures hw.value(st.r[idx]) / 8 + 1 < 8192
    ensures var w := hw.value(st.r[idx]) / 8;
            st' == Exec(hw, LdrQ(t, base, idx), st) == st.(v := st.v[t := Block(st.pad[w], st.pad[w + 1])])
  {
    st' := Exec(hw, LdrQ(t, base, idx), st);
  }

  lemma DoStrQ(hw: Hw, t: AReg, base: AReg, idx: AReg, st: AState) returns (st': AState)
    requires st.Valid() && idx < 31 && InPad(hw, st, base, idx, 16)
    ensures hw.value(st.r[idx]) / 8 + 1 < 8192
    ensures var w := hw.value(st.r[idx]) / 8;
            st' == Exec(hw, StrQ(t, base, idx), st) == st.(pad := st.pad[w := st.v[t].lo][w + 1 := st.v[t].hi])
  {
    st' := Exec(hw, StrQ(t, base, idx), st);
  }
}
