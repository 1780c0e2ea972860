/** The generated bytes under fetch, decode and execute. */
module X86Run {
  import opened Octets
  import opened Hardware
  import opened Isochron
  import opened X86
  import opened X86Bytes
  import opened X86Compile
  import opened X86Program

  // ----- layout -----

  function EncodeAll(code: seq<XInstr>): seq<bv8> {
    if code == [] then [] else Encode(code[0]) + EncodeAll(code[1..])
  }

  lemma {:induction false} EncodeAppend(a: seq<XInstr>, b: seq<XInstr>)
    ensures EncodeAll(a + b) == EncodeAll(a) + EncodeAll(b)
  {
    hide Encode;
    if a == [] {
      assert a + b == b;
    } else {
      EncodeAppend(a[1..], b);
      assert (a + b)[1..] == a[1..] + b;
      Associate(Encode(a[0]), EncodeAll(a[1..]), EncodeAll(b));
    }
  }

  lemma EncodeOne(i: XInstr)
    ensures EncodeAll([i]) == Encode(i)
  {
    hide Encode;
    assert [i][1..] == [];
  }

  /** Bytes one instruction takes. */
  function InstrLen(i: XInstr): nat {
    match i
    case Alu(_, _, _) => 3
    case AddImm(_, _) => 7
    case OrImm8(_, _) => 4
    case MovImm64(_, _) => 10
    case MovImm32(_, _) => 5
    case RotImm(_, _, _) => 4
    case RotCl(_, _) => 3
    case ShrImm(_, _) => 4
    case Not(_) => 3
    case Imul(_, _) => 4
    case ImulImm(_, _, _) => 7
    case MulRax(_) => 3
    case Mem(_, _) => 4
    case AndEax(_) => 5
    case LoadKey => 4
    case LoadLine => 5
    case AesEncLine => 5
    case StoreLine => 5
    case MovqRcx => 5
    case Push(reg) => if reg < 8 then 1 else 2
    case Pop(reg) => if reg < 8 then 1 else 2
    case ClearR10 => 3
    case IncR10 => 3
    case CmpR10(_) => 7
    case Jl(_) => 6
    case Ret => 1
  }

  lemma EncodedLength(i: XInstr)
    ensures |Encode(i)| == InstrLen(i)
  {
    hide Rex, ModRR, ModMem, RegBits, Le32, Le64, LeInt;
  }

  function CodeLen(code: seq<XInstr>): nat {
    if code == [] then 0 else InstrLen(code[0]) + CodeLen(code[1..])
  }

  lemma {:induction false} CodeLength(code: seq<XInstr>)
    ensures |EncodeAll(code)| == CodeLen(code)
  {
    hide Encode, InstrLen;
    if code != [] {
      EncodedLength(code[0]);
      CodeLength(code[1..]);
    }
  }

  lemma {:induction false} CodeLenAppend(a: seq<XInstr>, b: seq<XInstr>)
    ensures CodeLen(a + b) == CodeLen(a) + CodeLen(b)
  {
    hide InstrLen;
    if a == [] {
      assert a + b == b;
    } else {
      CodeLenAppend(a[1..], b);
      assert (a + b)[1..] == a[1..] + b;
    }
  }

  lemma CodeLenShort(code: seq<XInstr>)
    requires |code| <= 3
    ensures CodeLen(code) == (if |code| > 0 then InstrLen(code[0]) else 0)
                             + (if |code| > 1 then InstrLen(code[1]) else 0)
                             + (if |code| > 2 then InstrLen(code[2]) else 0)
  {
    hide InstrLen;
    if |code| > 1 {
      assert CodeLen(code[1..]) == InstrLen(code[1]) + CodeLen(code[1..][1..]);
    }
  }

  /** The frozen table of body lengths, in bytes. */
  function X86Len(op: Op): nat {
    match op
    case Add => 11 case Sub => 11 case Xor => 11
    case Or => 15 case And => 15 case Andn => 21
    case Rolx => 7 case Rola => 7 case Rorx => 7 case Rora => 7
    case Vrol => 14 case Vror => 14
    case Load => 28 case Store => 28 case Rmw => 63
    case Loadb => 28 case Storeb => 28 case Rmwb => 63
    case Mullo => 11 case Mulhi => 24 case Aesr => 47
  }

  lemma AddrLength(src: XReg, k: bv32, mask: bv32, tmp: XReg)
    ensures CodeLen(Addr(src, k, mask, tmp)) == 24
  {
    var a, b := [Alu(AluMov, RAX, src), MovImm32(tmp, k), Alu(AluXor, RAX, tmp)],
      [Imul(RAX, R11), ShrImm(RAX, 40), AndEax(mask)];
    CodeLenAppend(a, b);
    CodeLenShort(a);
    CodeLenShort(b);
  }

  lemma Split(a: seq<XInstr>, b: seq<XInstr>)
    requires |a| <= 3 && |b| <= 3
    ensures CodeLen(a + b) == CodeLen(a) + CodeLen(b)
    ensures CodeLen(a) == (if |a| > 0 then InstrLen(a[0]) else 0) + (if |a| > 1 then InstrLen(a[1]) else 0)
                          + (if |a| > 2 then InstrLen(a[2]) else 0)
    ensures CodeLen(b) == (if |b| > 0 then InstrLen(b[0]) else 0) + (if |b| > 1 then InstrLen(b[1]) else 0)
                          + (if |b| > 2 then InstrLen(b[2]) else 0)
  {
    CodeLenAppend(a, b);
    CodeLenShort(a);
    CodeLenShort(b);
  }

  lemma RegisterSlotLength(slot: Instr)
    requires RegisterOnly(slot.op) && slot.op != Mulhi
    ensures CodeLen(SlotCode(slot)) == X86Len(slot.op)
  {
    hide CodeLen, Pin;
    var d, s, imm := Pin(slot.d), Pin(slot.s), slot.imm;
    match slot.op {
      case Add => Split([Alu(AluAdd, d, s)], ImmOp(AluXor, d, imm));
      case Sub => Split([Alu(AluSub, d, s)], ImmOp(AluXor, d, imm));
      case Xor => Split([Alu(AluXor, d, s)], ImmOp(AluAdd, d, imm));
      case Or => Split([RotImm(false, d, 17), MovImm32(RCX, imm)], [Alu(AluOr, RCX, s), Alu(AluXor, d, RCX)]);
      case And => Split([RotImm(false, d, 23), MovImm32(RCX, imm)], [Alu(AluAnd, RCX, s), Alu(AluXor, d, RCX)]);
      case Andn =>
        Split([RotImm(false, d, 29), Alu(AluMov, RDX, s), Not(RDX)],
              [MovImm32(RCX, imm), Alu(AluAnd, RCX, RDX), Alu(AluXor, d, RCX)]);
      case Vrol => Split([Alu(AluMov, RCX, s), RotCl(false, d)], ImmOp(AluXor, d, imm));
      case Vror => Split([Alu(AluMov, RCX, s), RotCl(true, d)], ImmOp(AluAdd, d, imm));
      case _ => CodeLenShort(SlotCode(slot));
    }
  }

  lemma AccessSlotLength(slot: Instr)
    requires slot.op in {Load, Loadb, Store, Storeb}
    ensures CodeLen(SlotCode(slot)) == X86Len(slot.op)
  {
    hide CodeLen, Pin, Addr;
    var d, s, k := Pin(slot.d), Pin(slot.s), AddrKey(slot.op, slot.imm);
    var load := slot.op in {Load, Loadb};
    var a, m := Addr(if load then s else d, k, SCRATCH_MASK, RCX), if load then Mem(XorLoad, d) else Mem(AddStore, s);
    AddrLength(if load then s else d, k, SCRATCH_MASK, RCX);
    CodeLenAppend(a, [m]);
    CodeLenShort([m]);
  }

  lemma UpdateSlotLength(slot: Instr)
    requires slot.op in {Rmw, Rmwb}
    ensures CodeLen(SlotCode(slot)) == X86Len(slot.op)
  {
    hide CodeLen, Pin, Addr;
    var d, s, k := Pin(slot.d), Pin(slot.s), AddrKey(slot.op, slot.imm);
    var op, k2 := if slot.op == Rmw then AluAdd else AluXor, if slot.op == Rmw then C2 else C1;
    var m := Mem(if slot.op == Rmw then XorLoad else AddLoad, d);
    var a, b, c := Addr(s, k, SCRATCH_MASK, RCX), UpdateCode(op, d), Addr(RCX, k2, SCRATCH_MASK, RDX);
    AddrLength(s, k, SCRATCH_MASK, RCX);
    AddrLength(RCX, k2, SCRATCH_MASK, RDX);
    CodeLenShort(b);
    CodeLenShort([m]);
    CodeLenAppend(a, b);
    CodeLenAppend(a + b, c);
    CodeLenAppend(a + b + c, [m]);
  }

  lemma WideSlotLength(slot: Instr)
    requires slot.op in {Aesr, Mulhi}
    ensures CodeLen(SlotCode(slot)) == X86Len(slot.op)
  {
    hide CodeLen, Pin, Addr;
    var d, s, k := Pin(slot.d), Pin(slot.s), AddrKey(slot.op, slot.imm);
    if slot.op == Aesr {
      AddrLength(s, k, LINE_MASK, RCX);
      CodeLenAppend(Addr(s, k, LINE_MASK, RCX), LineCode(d));
      Split([LoadLine, AesEncLine, StoreLine], [MovqRcx, Alu(AluXor, d, RCX)]);
    } else {
      var a, b := [Alu(AluMov, RCX, s), OrImm8(RCX, 1), Alu(AluMov, RAX, d)], [MulRax(RCX), Alu(AluMov, d, RDX)];
      Split(a, b);
      CodeLenAppend(a + b, ImmOp(AluXor, d, slot.imm));
      CodeLenShort(ImmOp(AluXor, d, slot.imm));
    }
  }

  /** Every slot takes exactly the bytes the frozen table gives its opcode, whatever its
      registers and immediate. */
  lemma SlotBytes(slot: Instr)
    ensures |EncodeAll(SlotCode(slot))| == X86Len(slot.op)
  {
    CodeLength(SlotCode(slot));
    if RegisterOnly(slot.op) && slot.op != Mulhi {
      RegisterSlotLength(slot);
    } else if slot.op in {Aesr, Mulhi} {
      WideSlotLength(slot);
    } else if slot.op in {Rmw, Rmwb} {
      UpdateSlotLength(slot);
    } else {
      AccessSlotLength(slot);
    }
  }
}
