/** The emitter: instruction bytes written in place into a caller's buffer. */
module X86Emitter {
  import opened Octets
  import opened Hardware
  import opened Isochron
  import opened X86
  import opened X86Bytes
  import opened X86Compile
  import opened X86Program
  import opened X86Run
  import opened X86Correct

  lemma Snoc(code: seq<XInstr>, i: XInstr)
    ensures EncodeAll(code + [i]) == EncodeAll(code) + Encode(i)
  {
    EncodeAppend(code, [i]);
    EncodeOne(i);
  }

  /** Writes into the window of `limit` bytes at `base` and nowhere else. */
  class Emitter {
    const buf: array<bv8>
    const base: nat
    const limit: nat
    var pos: nat
    /** The instructions written so far, and the bytes on either side of the window. */
    ghost var code: seq<XInstr>
    ghost const before: seq<bv8>
    ghost const after: seq<bv8>

    ghost predicate Valid()
      reads this, buf
    {
      && pos <= limit && base + limit <= buf.Length
      && buf[base..base + pos] == EncodeAll(code)
      && buf[..base] == before && buf[base + limit..] == after
    }

    /** Bytes left in the window. */
    ghost function Room(): int
      reads this
    {
      limit - pos
    }

    constructor (out: array<bv8>, base: nat, limit: nat)
      requires base + limit <= out.Length
      ensures Valid() && buf == out && this.base == base && this.limit == limit && pos == 0 && code == []
      ensures before == out[..base] && after == out[base + limit..]
    {
      buf := out;
      this.base := base;
      this.limit := limit;
      pos := 0;
      code := [];
      before := out[..base];
      after := out[base + limit..];
      new;
      CodeLength([]);
    }

    method EBytes(bs: seq<bv8>)
      requires pos + |bs| <= limit && base + limit <= buf.Length
      modifies this`pos, buf
      ensures pos == old(pos) + |bs|
      ensures buf[base..base + pos] == old(buf[base..base + pos]) + bs
      ensures buf[..base] == old(buf[..base]) && buf[base + limit..] == old(buf[base + limit..])
    {
      var start := pos;
      ghost var was := buf[..];
      for n := 0 to |bs|
        invariant pos == start + n && pos <= limit
        invariant forall j :: 0 <= j < base + start || base + pos <= j < buf.Length ==> buf[j] == was[j]
        invariant forall j :: 0 <= j < n ==> buf[base + start + j] == bs[j]
      {
        buf[base + pos] := bs[n];
        pos := pos + 1;
      }
      assert buf[base..base + pos] == was[base..base + start] + bs;
    }

    /** Appends one instruction's bytes. */
    method Put(bs: seq<bv8>, ghost i: XInstr)
      requires Valid() && bs == Encode(i) && |bs| <= Room()
      modifies this, buf
      ensures Valid() && code == old(code) + [i] && pos == old(pos) + InstrLen(i)
    {
      EBytes(bs);
      Snoc(code, i);
      EncodedLength(i);
      code := code + [i];
    }

    method AluRr(op: AluOp, dst: XReg, src: XReg)
      requires Valid() && InstrLen(Alu(op, dst, src)) <= Room()
      modifies this, buf
      ensures Valid() && code == old(code) + [Alu(op, dst, src)] && pos == old(pos) + InstrLen(Alu(op, dst, src))
    {
      EncodedLength(Alu(op, dst, src));
      var d, s := RegBits(dst), RegBits(src);
      Put([0x48 | (Bit(s >= 8) << 2) | Bit(d >= 8), AluOpcode(op), 0xC0 | ((s & 7) << 3) | (d & 7)], Alu(op, dst, src));
    }

    method AddRi(dst: XReg, imm: bv32)
      requires Valid() && InstrLen(AddImm(dst, imm)) <= Room()
      modifies this, buf
      ensures Valid() && code == old(code) + [AddImm(dst, imm)] && pos == old(pos) + InstrLen(AddImm(dst, imm))
    {
      EncodedLength(AddImm(dst, imm));
      var d := RegBits(dst);
      Put([0x48 | Bit(d >= 8), 0x81, 0xC0 | (d & 7)] + Le32(imm), AddImm(dst, imm));
    }

    method OrRi8(dst: XReg, imm: bv8)
      requires Valid() && InstrLen(OrImm8(dst, imm)) <= Room()
      modifies this, buf
      ensures Valid() && code == old(code) + [OrImm8(dst, imm)] && pos == old(pos) + InstrLen(OrImm8(dst, imm))
    {
      EncodedLength(OrImm8(dst, imm));
      var d := RegBits(dst);
      Put([0x48 | Bit(d >= 8), 0x83, 0xC8 | (d & 7)] + [imm], OrImm8(dst, imm));
    }

    method MovRi64(dst: XReg, imm: bv64)
      requires Valid() && InstrLen(MovImm64(dst, imm)) <= Room()
      modifies this, buf
      ensures Valid() && code == old(code) + [MovImm64(dst, imm)] && pos == old(pos) + InstrLen(MovImm64(dst, imm))
    {
      EncodedLength(MovImm64(dst, imm));
      var d := RegBits(dst);
      Put([0x48 | Bit(d >= 8), 0xB8 | (d & 7)] + Le64(imm), MovImm64(dst, imm));
    }

    method MovRi32(dst: XReg, imm: bv32)
      requires Valid() && InstrLen(MovImm32(dst, imm)) <= Room()
      modifies this, buf
      ensures Valid() && code == old(code) + [MovImm32(dst, imm)] && pos == old(pos) + InstrLen(MovImm32(dst, imm))
    {
      EncodedLength(MovImm32(dst, imm));
      Put([0xB8 | (RegBits(dst) & 7)] + Le32(imm), MovImm32(dst, imm));
    }

    method RotRi(right: bool, dst: XReg, k: bv8)
      requires Valid() && InstrLen(RotImm(right, dst, k)) <= Room()
      modifies this, buf
      ensures Valid() && code == old(code) + [RotImm(right, dst, k)]
              && pos == old(pos) + InstrLen(RotImm(right, dst, k))
    {
      EncodedLength(RotImm(right, dst, k));
      var d := RegBits(dst);
      Put([0x48 | Bit(d >= 8), 0xC1, 0xC0 | (Bit(right) << 3) | (d & 7)] + [k], RotImm(right, dst, k));
    }

    method RotRcl(right: bool, dst: XReg)
      requires Valid() && InstrLen(RotCl(right, dst)) <= Room()
      modifies this, buf
      ensures Valid() && code == old(code) + [RotCl(right, dst)] && pos == old(pos) + InstrLen(RotCl(right, dst))
    {
      EncodedLength(RotCl(right, dst));
      var d := RegBits(dst);
      Put([0x48 | Bit(d >= 8), 0xD3, 0xC0 | (Bit(right) << 3) | (d & 7)], RotCl(right, dst));
    }

    method ShrRi(dst: XReg, k: bv8)
      requires Valid() && InstrLen(ShrImm(dst, k)) <= Room()
      modifies this, buf
      ensures Valid() && code == old(code) + [ShrImm(dst, k)] && pos == old(pos) + InstrLen(ShrImm(dst, k))
    {
      EncodedLength(ShrImm(dst, k));
      var d := RegBits(dst);
      Put([0x48 | Bit(d >= 8), 0xC1, 0xC0 | (5 << 3) | (d & 7)] + [k], ShrImm(dst, k));
    }

    method NotR(dst: XReg)
      requires Valid() && InstrLen(Not(dst)) <= Room()
      modifies this, buf
      ensures Valid() && code == old(code) + [Not(dst)] && pos == old(pos) + InstrLen(Not(dst))
    {
      EncodedLength(Not(dst));
      var d := RegBits(dst);
      Put([0x48 | Bit(d >= 8), 0xF7, 0xC0 | (2 << 3) | (d & 7)], Not(dst));
    }

    method ImulRr(dst: XReg, src: XReg)
      requires Valid() && InstrLen(Imul(dst, src)) <= Room()
      modifies this, buf
      ensures Valid() && code == old(code) + [Imul(dst, src)] && pos == old(pos) + InstrLen(Imul(dst, src))
    {
      EncodedLength(Imul(dst, src));
      var d, s := RegBits(dst), RegBits(src);
      Put([0x48 | (Bit(d >= 8) << 2) | Bit(s >= 8), 0x0F, 0xAF, 0xC0 | ((d & 7) << 3) | (s & 7)], Imul(dst, src));
    }

    method ImulRri(dst: XReg, src: XReg, imm: bv32)
      requires Valid() && InstrLen(ImulImm(dst, src, imm)) <= Room()
      modifies this, buf
      ensures Valid() && code == old(code) + [ImulImm(dst, src, imm)]
              && pos == old(pos) + InstrLen(ImulImm(dst, src, imm))
    {
      EncodedLength(ImulImm(dst, src, imm));
      var d, s := RegBits(dst), RegBits(src);
      Put([0x48 | (Bit(d >= 8) << 2) | Bit(s >= 8), 0x69, 0xC0 | ((d & 7) << 3) | (s & 7)] + Le32(imm),
          ImulImm(dst, src, imm));
    }

    method MulR(src: XReg)
      requires Valid() && InstrLen(MulRax(src)) <= Room()
      modifies this, buf
      ensures Valid() && code == old(code) + [MulRax(src)] && pos == old(pos) + InstrLen(MulRax(src))
    {
      EncodedLength(MulRax(src));
      var s := RegBits(src);
      Put([0x48 | Bit(s >= 8), 0xF7, 0xC0 | (4 << 3) | (s & 7)], MulRax(src));
    }

    method MemRr(mop: MemOp, reg: XReg)
      requires Valid() && InstrLen(Mem(mop, reg)) <= Room()
      modifies this, buf
      ensures Valid() && code == old(code) + [Mem(mop, reg)] && pos == old(pos) + InstrLen(Mem(mop, reg))
    {
      EncodedLength(Mem(mop, reg));
      var r := RegBits(reg);
      Put([0x48 | (Bit(r >= 8) << 2), MemOpcode(mop), 0x04 | ((r & 7) << 3), 0x38], Mem(mop, reg));
    }

    method AndEaxImm(m: bv32)
      requires Valid() && InstrLen(AndEax(m)) <= Room()
      modifies this, buf
      ensures Valid() && code == old(code) + [AndEax(m)] && pos == old(pos) + InstrLen(AndEax(m))
    {
      EncodedLength(AndEax(m));
      Put([0x25] + Le32(m), AndEax(m));
    }

    method ImmRr(op: AluOp, dst: XReg, imm: bv32)
      requires Valid() && 8 <= Room()
      modifies this, buf
      ensures Valid() && code == old(code) + ImmOp(op, dst, imm) && pos == old(pos) + 8
    {
      MovRi32(RCX, imm);
      AluRr(op, dst, RCX);
    }

    method EmitAddr(src: XReg, k: bv32, mask: bv32, tmp: XReg)
      requires Valid() && 24 <= Room()
      modifies this, buf
      ensures Valid() && code == old(code) + Addr(src, k, mask, tmp) && pos == old(pos) + 24
    {
      hide Valid, EncodeAll;
      AluRr(AluMov, RAX, src);
      MovRi32(tmp, k);
      AluRr(AluXor, RAX, tmp);
      ImulRr(RAX, R11);
      ShrRi(RAX, 40);
      AndEaxImm(mask);
    }

    method EmitArith(slot: Instr)
      requires Valid() && slot.op in {Add, Sub, Xor} && X86Len(slot.op) <= Room()
      modifies this, buf
      ensures Valid() && code == old(code) + SlotCode(slot) && pos == old(pos) + X86Len(slot.op)
    {
      hide Valid, EncodeAll, Pin;
      var d, s, imm := Pin(slot.d), Pin(slot.s), slot.imm;
      match slot.op {
        case Add =>
          AluRr(AluAdd, d, s);
          ImmRr(AluXor, d, imm);
        case Sub =>
          AluRr(AluSub, d, s);
          ImmRr(AluXor, d, imm);
        case Xor =>
          AluRr(AluXor, d, s);
          ImmRr(AluAdd, d, imm);
      }
    }

    method EmitLogic(slot: Instr)
      requires Valid() && slot.op in {Or, And, Andn} && X86Len(slot.op) <= Room()
      modifies this, buf
      ensures Valid() && code == old(code) + SlotCode(slot) && pos == old(pos) + X86Len(slot.op)
    {
      hide Valid, EncodeAll, Pin;
      var d, s, imm := Pin(slot.d), Pin(slot.s), slot.imm;
      match slot.op {
        case Or =>
          RotRi(false, d, 17);
          MovRi32(RCX, imm);
          AluRr(AluOr, RCX, s);
          AluRr(AluXor, d, RCX);
        case And =>
          RotRi(false, d, 23);
          MovRi32(RCX, imm);
          AluRr(AluAnd, RCX, s);
          AluRr(AluXor, d, RCX);
        case Andn => EmitAndn(slot);
      }
    }

    method EmitAndn(slot: Instr)
      requires Valid() && slot.op == Andn && X86Len(slot.op) <= Room()
      modifies this, buf
      ensures Valid() && code == old(code) + SlotCode(slot) && pos == old(pos) + X86Len(slot.op)
    {
      hide Valid, EncodeAll, Pin;
      var d, s := Pin(slot.d), Pin(slot.s);
      RotRi(false, d, 29);
      AluRr(AluMov, RDX, s);
      NotR(RDX);
      MovRi32(RCX, slot.imm);
      AluRr(AluAnd, RCX, RDX);
      AluRr(AluXor, d, RCX);
    }

    method EmitRotate(slot: Instr)
      requires Valid() && slot.op in {Rolx, Rola, Rorx, Rora, Vrol, Vror} && X86Len(slot.op) <= Room()
      modifies this, buf
      ensures Valid() && code == old(code) + SlotCode(slot) && pos == old(pos) + X86Len(slot.op)
    {
      hide Valid, EncodeAll, Pin, Turn;
      var d, s, imm, k := Pin(slot.d), Pin(slot.s), slot.imm, Turn(slot.imm);
      match slot.op {
        case Rolx =>
          RotRi(false, d, k);
          AluRr(AluXor, d, s);
        case Rola =>
          RotRi(false, d, k);
          AluRr(AluAdd, d, s);
        case Rorx =>
          RotRi(true, d, k);
          AluRr(AluXor, d, s);
        case Rora =>
          RotRi(true, d, k);
          AluRr(AluAdd, d, s);
        case Vrol =>
          AluRr(AluMov, RCX, s);
          RotRcl(false, d);
          ImmRr(AluXor, d, imm);
        case Vror =>
          AluRr(AluMov, RCX, s);
          RotRcl(true, d);
          ImmRr(AluAdd, d, imm);
      }
    }

    method EmitAccess(slot: Instr)
      requires Valid() && slot.op in {Load, Loadb, Store, Storeb} && X86Len(slot.op) <= Room()
      modifies this, buf
      ensures Valid() && code == old(code) + SlotCode(slot) && pos == old(pos) + X86Len(slot.op)
    {
      hide Valid, EncodeAll, Addr, AddrKey, Pin;
      var d, s, k := Pin(slot.d), Pin(slot.s), AddrKey(slot.op, slot.imm);
      match slot.op {
        case Load | Loadb =>
          EmitAddr(s, k, SCRATCH_MASK, RCX);
          MemRr(XorLoad, d);
        case Store | Storeb =>
          EmitAddr(d, k, SCRATCH_MASK, RCX);
          MemRr(AddStore, s);
      }
    }

    method EmitUpdateWord(op: AluOp, d: XReg)
      requires Valid() && 11 <= Room()
      modifies this, buf
      ensures Valid() && code == old(code) + UpdateCode(op, d) && pos == old(pos) + 11
    {
      hide Valid, EncodeAll;
      MemRr(MovLoad, RCX);
      AluRr(op, RCX, d);
      MemRr(MovStore, RCX);
    }

    method EmitUpdate(slot: Instr)
      requires Valid() && slot.op in {Rmw, Rmwb} && X86Len(slot.op) <= Room()
      modifies this, buf
      ensures Valid() && code == old(code) + SlotCode(slot) && pos == old(pos) + X86Len(slot.op)
    {
      hide Valid, EncodeAll, Addr, AddrKey, Pin, UpdateCode;
      var d, s, k := Pin(slot.d), Pin(slot.s), AddrKey(slot.op, slot.imm);
      EmitAddr(s, k, SCRATCH_MASK, RCX);
      match slot.op {
        case Rmw =>
          EmitUpdateWord(AluAdd, d);
          EmitAddr(RCX, C2, SCRATCH_MASK, RDX);
          MemRr(XorLoad, d);
        case Rmwb =>
          EmitUpdateWord(AluXor, d);
          EmitAddr(RCX, C1, SCRATCH_MASK, RDX);
          MemRr(AddLoad, d);
      }
    }

    method EmitMultiply(slot: Instr)
      requires Valid() && slot.op in {Mullo, Mulhi} && X86Len(slot.op) <= Room()
      modifies this, buf
      ensures Valid() && code == old(code) + SlotCode(slot) && pos == old(pos) + X86Len(slot.op)
    {
      hide Valid, EncodeAll, Pin;
      var d, s, imm := Pin(slot.d), Pin(slot.s), slot.imm;
      AluRr(AluMov, RCX, s);
      OrRi8(RCX, 1);
      match slot.op {
        case Mullo =>
          ImulRr(d, RCX);
        case Mulhi =>
          AluRr(AluMov, RAX, d);
          MulR(RCX);
          AluRr(AluMov, d, RDX);
          ImmRr(AluXor, d, imm);
      }
    }

    method EmitLine(d: XReg)
      requires Valid() && 23 <= Room()
      modifies this, buf
      ensures Valid() && code == old(code) + LineCode(d) && pos == old(pos) + 23
    {
      hide Valid, EncodeAll;
      Put([0xF3, 0x0F, 0x6F, 0x0C, 0x38], LoadLine);
      Put([0x66, 0x0F, 0x38, 0xDC, 0xC8], AesEncLine);
      Put([0xF3, 0x0F, 0x7F, 0x0C, 0x38], StoreLine);
      Put([0x66, 0x48, 0x0F, 0x7E, 0xC9], MovqRcx);
      AluRr(AluXor, d, RCX);
    }

    method EmitAes(slot: Instr)
      requires Valid() && slot.op in {Aesr} && X86Len(slot.op) <= Room()
      modifies this, buf
      ensures Valid() && code == old(code) + SlotCode(slot) && pos == old(pos) + X86Len(slot.op)
    {
      hide Valid, EncodeAll, Addr, AddrKey, Pin, LineCode;
      EmitAddr(Pin(slot.s), AddrKey(slot.op, slot.imm), LINE_MASK, RCX);
      EmitLine(Pin(slot.d));
    }

    /** One slot: its code, in exactly the bytes the length table gives it. */
    method EmitOne(slot: Instr)
      requires Valid() && X86Len(slot.op) <= Room()
      modifies this, buf
      ensures Valid() && code == old(code) + SlotCode(slot) && pos == old(pos) + X86Len(slot.op)
    {
      hide Valid, SlotCode, X86Len;
      match slot.op {
        case Add | Sub | Xor => EmitArith(slot);
        case Or | And | Andn => EmitLogic(slot);
        case Rolx | Rola | Rorx | Rora | Vrol | Vror => EmitRotate(slot);
        case Load | Loadb | Store | Storeb => EmitAccess(slot);
        case Rmw | Rmwb => EmitUpdate(slot);
        case Mullo | Mulhi => EmitMultiply(slot);
        case Aesr => EmitAes(slot);
      }
    }

    method EmitSave()
      requires Valid() && 10 <= Room()
      modifies this, buf
      ensures Valid() && code == old(code) + SaveCode() && pos == old(pos) + 10
    {
      hide Valid, EncodeAll, Encode;
      SaveBytes();
      Put([0x53], Push(3));
      Put([0x55], Push(5));
      EmitSaveHigh();
    }

    method EmitSaveHigh()
      requires Valid() && 8 <= Room()
      modifies this, buf
      ensures Valid() && code == old(code) + [Push(12), Push(13), Push(14), Push(15)] && pos == old(pos) + 8
    {
      hide Valid, EncodeAll, Encode;
      SaveBytes();
      Put([0x41, 0x54], Push(12));
      Put([0x41, 0x55], Push(13));
      Put([0x41, 0x56], Push(14));
      Put([0x41, 0x57], Push(15));
    }

    method EmitRestore()
      requires Valid() && 10 <= Room()
      modifies this, buf
      ensures Valid() && code == old(code) + RestoreCode() && pos == old(pos) + 10
    {
      hide Valid, EncodeAll, Encode;
      RestoreBytes();
      EmitRestoreHigh();
      Put([0x5D], Pop(5));
      Put([0x5B], Pop(3));
    }

    method EmitRestoreHigh()
      requires Valid() && 8 <= Room()
      modifies this, buf
      ensures Valid() && code == old(code) + [Pop(15), Pop(14), Pop(13), Pop(12)] && pos == old(pos) + 8
    {
      hide Valid, EncodeAll, Encode;
      RestoreBytes();
      Put([0x41, 0x5F], Pop(15));
      Put([0x41, 0x5E], Pop(14));
      Put([0x41, 0x5D], Pop(13));
      Put([0x41, 0x5C], Pop(12));
    }

    /** Registers initialised from the seed: seven bytes for the first, fourteen for each other. */
    method EmitInit()
      requires Valid() && 105 <= Room()
      modifies this, buf
      ensures Valid() && code == old(code) + InitCode(8) && pos == old(pos) + 105
    {
      hide Valid, EncodeAll, Encode, Pin;
      for i := 0 to 8
        invariant Valid() && code == old(code) + InitCode(i)
        invariant pos == old(pos) + (if i == 0 then 0 else 14 * i - 7)
      {
        ImulRri(Pin(i), RSI, ODD[i]);
        if i != 0 {
          AddRi(Pin(i), INDEX[i]);
        }
        assert code == old(code) + (InitCode(i) + InitOne(i));
      }
    }

    /** The prologue, 132 bytes, ending at the top of the loop. */
    method EmitPrologue()
      requires Valid() && PROLOGUE_BYTES <= Room()
      modifies this, buf
      ensures Valid() && code == old(code) + Prologue() && pos == old(pos) + PROLOGUE_BYTES
    {
      hide Valid, EncodeAll, Encode, SaveCode, InitCode;
      FixedBytes();
      EmitSave();
      MovRi64(R11, MULT);
      Put([0xF3, 0x0F, 0x6F, 0x02], LoadKey);
      EmitInit();
      Put([0x45, 0x31, 0xD2], ClearR10);
    }

    /** The slots in order. */
    method EmitBody(prog: seq<Instr>)
      requires Valid() && BodyLen(prog) <= Room()
      modifies this, buf
      ensures Valid() && code == old(code) + Body(prog) && pos == old(pos) + BodyLen(prog)
    {
      hide Valid, SlotCode, X86Len;
      for i := 0 to |prog|
        invariant Valid() && code == old(code) + Body(prog[..i]) && pos == old(pos) + BodyLen(prog[..i])
      {
        BodyLenGrows(prog, i);
        EmitOne(prog[i]);
      }
      assert prog[..|prog|] == prog;
    }

    method EmitFold()
      requires Valid() && 24 <= Room()
      modifies this, buf
      ensures Valid() && code == old(code) + FoldCode(8) && pos == old(pos) + 24
    {
      hide Valid, EncodeAll, Pin;
      AluRr(AluMov, RAX, Pin(0));
      for i := 1 to 8
        invariant Valid() && code == old(code) + FoldCode(i) && pos == old(pos) + 3 * i
      {
        AluRr(AluXor, RAX, Pin(i));
        assert code == old(code) + (FoldCode(i) + [Alu(AluXor, RAX, Pin(i))]);
      }
    }

    /** The end of the loop: counter, comparison, and the jump back to loopTop. */
    method EmitLoopEnd(loopTop: nat)
      requires Valid() && 19 <= Room() && loopTop <= pos
      modifies this, buf
      ensures Valid() && code == old(code) + LoopEnd() + [Jl(loopTop - (old(pos) + 19))] && pos == old(pos) + 19
    {
      hide Valid, EncodeAll, Encode;
      FixedBytes();
      AluRr(AluXor, Pin(0), R10);
      Put([0x49, 0xFF, 0xC2], IncR10);
      Put([0x49, 0x81, 0xFA] + Le32(1024), CmpR10(1024));
      var disp := loopTop - (pos + 6);
      JlBytes(disp);
      Put([0x0F, 0x8C] + LeInt(disp), Jl(disp));
    }

    method EmitReturn()
      requires Valid() && 35 <= Room()
      modifies this, buf
      ensures Valid() && code == old(code) + Tail() + [Ret] && pos == old(pos) + 35
    {
      hide Valid, EncodeAll, Encode, FoldCode, RestoreCode;
      FixedBytes();
      EmitFold();
      EmitRestore();
      Put([0xC3], Ret);
    }
  }

  lemma PushPopBytes(reg: XReg)
    ensures Encode(Push(reg)) == if reg < 8 then [0x50 | RegBits(reg)] else [0x41, 0x50 | (RegBits(reg) & 7)]
    ensures Encode(Pop(reg)) == if reg < 8 then [0x58 | RegBits(reg)] else [0x41, 0x58 | (RegBits(reg) & 7)]
  {
    hide RegBits, EncodeRex;
  }

  lemma SavedNumbers()
    ensures RegBits(3) == 3 && RegBits(5) == 5 && RegBits(12) == 12
    ensures RegBits(13) == 13 && RegBits(14) == 14 && RegBits(15) == 15
  {
  }

  lemma SaveBytes()
    ensures Encode(Push(3)) == [0x53] && Encode(Push(5)) == [0x55] && Encode(Push(12)) == [0x41, 0x54]
    ensures Encode(Push(13)) == [0x41, 0x55] && Encode(Push(14)) == [0x41, 0x56] && Encode(Push(15)) == [0x41, 0x57]
  {
    hide Encode, RegBits;
    SavedNumbers();
    PushPopBytes(3); PushPopBytes(5); PushPopBytes(12);
    PushPopBytes(13); PushPopBytes(14); PushPopBytes(15);
  }

  lemma RestoreBytes()
    ensures Encode(Pop(3)) == [0x5B] && Encode(Pop(5)) == [0x5D] && Encode(Pop(12)) == [0x41, 0x5C]
    ensures Encode(Pop(13)) == [0x41, 0x5D] && Encode(Pop(14)) == [0x41, 0x5E] && Encode(Pop(15)) == [0x41, 0x5F]
  {
    hide Encode, RegBits;
    SavedNumbers();
    PushPopBytes(3); PushPopBytes(5); PushPopBytes(12);
    PushPopBytes(13); PushPopBytes(14); PushPopBytes(15);
  }

  lemma FixedBytes()
    ensures Encode(LoadKey) == [0xF3, 0x0F, 0x6F, 0x02] && Encode(ClearR10) == [0x45, 0x31, 0xD2]
    ensures Encode(IncR10) == [0x49, 0xFF, 0xC2] && Encode(CmpR10(1024)) == [0x49, 0x81, 0xFA] + Le32(1024)
    ensures Encode(Ret) == [0xC3]
  {
    hide Le32, EncodeRex, RegBits;
  }

  lemma JlBytes(rel: int)
    ensures Encode(Jl(rel)) == [0x0F, 0x8C] + LeInt(rel)
  {
    hide LeInt;
  }

  // ----- the size and the layout of the whole program -----

  const PROLOGUE_BYTES: nat := 132
  const EPILOGUE_BYTES: nat := 54

  function BodyLen(prog: seq<Instr>): nat {
    if prog == [] then 0 else BodyLen(prog[..|prog| - 1]) + X86Len(prog[|prog| - 1].op)
  }

  lemma {:induction false} BodyLenGrows(prog: seq<Instr>, i: nat)
    requires i < |prog|
    ensures Body(prog[..i + 1]) == Body(prog[..i]) + SlotCode(prog[i])
    ensures BodyLen(prog[..i + 1]) == BodyLen(prog[..i]) + X86Len(prog[i].op) <= BodyLen(prog)
    decreases |prog| - i
  {
    hide SlotCode, X86Len;
    assert prog[..i + 1][..i] == prog[..i];
    if i + 1 < |prog| {
      BodyLenGrows(prog, i + 1);
    } else {
      assert prog[..i + 1] == prog;
    }
  }

  /** The displacement the emitter computes is the one that closes the loop. */
  lemma Displacement(prog: seq<Instr>, before: nat, pos: nat)
    requires before == |EncodeAll(Prologue())| && pos == |EncodeAll(Prologue() + Body(prog))|
    ensures Jl(before - (pos + 19)) == JumpBack(prog)
  {
    hide EncodeAll, Prologue, Body, LoopEnd;
    EncodeAppend(Prologue(), Body(prog));
    EncodeAppend(Body(prog), LoopEnd());
    LoopEndBytes();
  }

  lemma LoopEndBytes()
    ensures |EncodeAll(LoopEnd())| == 13
  {
    hide EncodeAll;
    CodeLength(LoopEnd());
    CodeLenShort(LoopEnd());
  }

  lemma Assembled(prog: seq<Instr>)
    ensures [] + Prologue() + Body(prog) + LoopEnd() + [JumpBack(prog)] + Tail() + [Ret] == Code(prog)
  {
    hide Prologue, Body, LoopEnd, JumpBack, Tail;
  }

  /** Writes the bytes of any program at the start of a window and leaves the rest of the
      buffer alone. */
  method Emit(prog: seq<Instr>, out: array<bv8>, base: nat, limit: nat) returns (n: nat)
    requires base + limit <= out.Length && PROLOGUE_BYTES + BodyLen(prog) + EPILOGUE_BYTES <= limit
    modifies out
    ensures n == PROLOGUE_BYTES + BodyLen(prog) + EPILOGUE_BYTES
    ensures out[base..base + n] == Bytes(prog)
    ensures out[..base] == old(out[..base]) && out[base + limit..] == old(out[base + limit..])
  {
    hide EncodeAll, Prologue, Body, LoopEnd, Tail, JumpBack, BodyLen, Code;
    var e := new Emitter(out, base, limit);
    e.EmitPrologue();
    var loopTop := e.pos;
    e.EmitBody(prog);
    assert [] + Prologue() == Prologue();
    Displacement(prog, loopTop, e.pos);
    e.EmitLoopEnd(loopTop);
    e.EmitReturn();
    Assembled(prog);
    n := e.pos;
  }
}
