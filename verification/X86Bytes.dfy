/** Instruction bytes: the encoders of the emitter, and a decoder for the same subset.
    Prefix, opcode, ModRM and SIB fields follow sections 2.1.3 and 2.2.1 of volume 2 of
    the Intel 64 manual. */
module X86Bytes {
  import opened Octets
  import opened X86

  function RegBits(n: XReg): (b: bv8)
    ensures b < 16
    ensures RegOf(b) == n
  {
    match n
    case 0 => 0 case 1 => 1 case 2 => 2 case 3 => 3 case 4 => 4 case 5 => 5 case 6 => 6 case 7 => 7
    case 8 => 8 case 9 => 9 case 10 => 10 case 11 => 11 case 12 => 12 case 13 => 13 case 14 => 14 case _ => 15
  }

  function RegOf(b: bv8): XReg {
    match b
    case 0 => 0 case 1 => 1 case 2 => 2 case 3 => 3 case 4 => 4 case 5 => 5 case 6 => 6 case 7 => 7
    case 8 => 8 case 9 => 9 case 10 => 10 case 11 => 11 case 12 => 12 case 13 => 13 case 14 => 14 case _ => 15
  }

  function Bit(b: bool): bv8 { if b then 1 else 0 }

  /** REX.W with the extension bits of the ModRM reg and rm fields. */
  function Rex(reg: bv8, rm: bv8): bv8 { 0x48 | (Bit(reg >= 8) << 2) | Bit(rm >= 8) }

  /** ModRM for two registers. */
  function ModRR(reg: bv8, rm: bv8): bv8 { 0xC0 | ((reg & 7) << 3) | (rm & 7) }

  function RegField(rex: bv8, modrm: bv8): bv8 { ((rex & 4) << 1) | ((modrm >> 3) & 7) }

  function RmField(rex: bv8, modrm: bv8): bv8 { ((rex & 1) << 3) | (modrm & 7) }

  lemma Fields(reg: bv8, rm: bv8)
    requires reg < 16 && rm < 16
    ensures var rex, m := Rex(reg, rm), ModRR(reg, rm);
            && rex & 0xF8 == 0x48 && m & 0xC0 == 0xC0
            && RegField(rex, m) == reg && RmField(rex, m) == rm
            && (m >> 3) & 7 == reg & 7
  {
  }

  // ----- the encoders -----

  function AluOpcode(op: AluOp): bv8 {
    match op
    case AluAdd => 0x01 case AluSub => 0x29 case AluXor => 0x31
    case AluOr => 0x09 case AluAnd => 0x21 case AluMov => 0x89
  }

  function MemOpcode(op: MemOp): bv8 {
    match op
    case XorLoad => 0x33 case AddLoad => 0x03 case MovLoad => 0x8B
    case AddStore => 0x01 case MovStore => 0x89
  }

  /** ModRM that selects a SIB byte with no displacement. */
  function ModMem(reg: bv8): bv8 { 0x04 | ((reg & 7) << 3) }

  /** A REX instruction with two register operands. */
  function EncodeRR(opcode: bv8, reg: bv8, rm: bv8): seq<bv8> { [Rex(reg, rm), opcode, ModRR(reg, rm)] }

  /** The 32-bit move has no REX prefix, so it reaches the low eight registers only; a
      displacement has 32 bits. */
  predicate Encodable(i: XInstr) {
    (i.MovImm32? ==> i.dst < 8) && (i.Jl? ==> -0x8000_0000 <= i.rel < 0x8000_0000)
  }

  function EncodeRex(i: XInstr): seq<bv8> {
    match i
    case Alu(op, dst, src) => EncodeRR(AluOpcode(op), RegBits(src), RegBits(dst))
    case AddImm(dst, imm) => EncodeRR(0x81, 0, RegBits(dst)) + Le32(imm)
    case OrImm8(dst, imm8) => EncodeRR(0x83, 1, RegBits(dst)) + [imm8]
    case MovImm64(dst, imm64) => [Rex(0, RegBits(dst)), 0xB8 | (RegBits(dst) & 7)] + Le64(imm64)
    case RotImm(right, dst, k) => EncodeRR(0xC1, Bit(right), RegBits(dst)) + [k]
    case RotCl(right, dst) => EncodeRR(0xD3, Bit(right), RegBits(dst))
    case ShrImm(dst, k) => EncodeRR(0xC1, 5, RegBits(dst)) + [k]
    case Not(dst) => EncodeRR(0xF7, 2, RegBits(dst))
    case Imul(dst, src) =>
      [Rex(RegBits(dst), RegBits(src)), 0x0F, 0xAF, ModRR(RegBits(dst), RegBits(src))]
    case ImulImm(dst, src, imm) => EncodeRR(0x69, RegBits(dst), RegBits(src)) + Le32(imm)
    case MulRax(src) => EncodeRR(0xF7, 4, RegBits(src))
    case Mem(mop, reg) => [Rex(RegBits(reg), 0), MemOpcode(mop), ModMem(RegBits(reg)), 0x38]
    case _ => []
  }

  function Encode(i: XInstr): seq<bv8> {
    match i
    case MovImm32(dst, imm) => [0xB8 | (RegBits(dst) & 7)] + Le32(imm)
    case AndEax(imm) => [0x25] + Le32(imm)
    case LoadKey => [0xF3, 0x0F, 0x6F, 0x02]
    case LoadLine => [0xF3, 0x0F, 0x6F, 0x0C, 0x38]
    case AesEncLine => [0x66, 0x0F, 0x38, 0xDC, 0xC8]
    case StoreLine => [0xF3, 0x0F, 0x7F, 0x0C, 0x38]
    case MovqRcx => [0x66, 0x48, 0x0F, 0x7E, 0xC9]
    case Push(reg) => if reg < 8 then [0x50 | RegBits(reg)] else [0x41, 0x50 | (RegBits(reg) & 7)]
    case Pop(reg) => if reg < 8 then [0x58 | RegBits(reg)] else [0x41, 0x58 | (RegBits(reg) & 7)]
    case ClearR10 => [0x45, 0x31, 0xD2]
    case IncR10 => [0x49, 0xFF, 0xC2]
    case CmpR10(imm) => [0x49, 0x81, 0xFA] + Le32(imm)
    case Jl(rel) => [0x0F, 0x8C] + LeInt(rel)
    case Ret => [0xC3]
    case _ => EncodeRex(i)
  }

  // ----- the decoder -----

  datatype Decoded = Bad | Decoded(i: XInstr, len: nat)

  function DecodeAlu(opcode: bv8, dst: XReg, src: XReg): Decoded {
    if opcode == 0x01 then Decoded(Alu(AluAdd, dst, src), 3)
    else if opcode == 0x29 then Decoded(Alu(AluSub, dst, src), 3)
    else if opcode == 0x31 then Decoded(Alu(AluXor, dst, src), 3)
    else if opcode == 0x09 then Decoded(Alu(AluOr, dst, src), 3)
    else if opcode == 0x21 then Decoded(Alu(AluAnd, dst, src), 3)
    else if opcode == 0x89 then Decoded(Alu(AluMov, dst, src), 3)
    else Bad
  }

  function DecodeMem(opcode: bv8, reg: XReg): Decoded {
    if opcode == 0x33 then Decoded(Mem(XorLoad, reg), 4)
    else if opcode == 0x03 then Decoded(Mem(AddLoad, reg), 4)
    else if opcode == 0x8B then Decoded(Mem(MovLoad, reg), 4)
    else if opcode == 0x01 then Decoded(Mem(AddStore, reg), 4)
    else if opcode == 0x89 then Decoded(Mem(MovStore, reg), 4)
    else Bad
  }

  /** Opcodes whose ModRM reg field extends the opcode and takes an immediate byte. */
  function DecodeExt8(opcode: bv8, ext: bv8, rm: XReg, k: bv8): Decoded {
    if opcode == 0x83 && ext == 1 then Decoded(OrImm8(rm, k), 4)
    else if opcode == 0xC1 && ext == 0 then Decoded(RotImm(false, rm, k), 4)
    else if opcode == 0xC1 && ext == 1 then Decoded(RotImm(true, rm, k), 4)
    else if opcode == 0xC1 && ext == 5 then Decoded(ShrImm(rm, k), 4)
    else Bad
  }

  /** ... and those that take none. */
  function DecodeExt(opcode: bv8, ext: bv8, rm: XReg): Decoded {
    if opcode == 0xD3 && ext == 0 then Decoded(RotCl(false, rm), 3)
    else if opcode == 0xD3 && ext == 1 then Decoded(RotCl(true, rm), 3)
    else if opcode == 0xF7 && ext == 2 then Decoded(Not(rm), 3)
    else if opcode == 0xF7 && ext == 4 then Decoded(MulRax(rm), 3)
    else if opcode == 0xFF && ext == 0 && rm == 10 then Decoded(IncR10, 3)
    else Bad
  }

  /** ... and those that take a 32-bit immediate. */
  function DecodeExt32(ext: bv8, rm: XReg, imm: bv32): Decoded {
    if ext == 0 then Decoded(AddImm(rm, imm), 7)
    else if ext == 7 && rm == 10 then Decoded(CmpR10(imm), 7)
    else Bad
  }

  function DecodeRex(b: seq<bv8>): Decoded
    requires |b| >= 3
  {
    var rex, op, m := b[0], b[1], b[2];
    if op & 0xF8 == 0xB8 then
      if |b| < 10 then Bad else Decoded(MovImm64(RegOf(((rex & 1) << 3) | (op & 7)), Of64(b[2..])), 10)
    else if op == 0x0F then
      if |b| < 4 || m != 0xAF || b[3] & 0xC0 != 0xC0 then Bad
      else Decoded(Imul(RegOf(RegField(rex, b[3])), RegOf(RmField(rex, b[3]))), 4)
    else if m & 0xC0 == 0xC0 then
      var reg, rm, ext := RegOf(RegField(rex, m)), RegOf(RmField(rex, m)), (m >> 3) & 7;
      if op == 0x69 || op == 0x81 then
        if |b| < 7 then Bad
        else if op == 0x69 then Decoded(ImulImm(reg, rm, Of32(b[3..])), 7)
        else DecodeExt32(ext, rm, Of32(b[3..]))
      else if op == 0x83 || op == 0xC1 then
        if |b| < 4 then Bad else DecodeExt8(op, ext, rm, b[3])
      else if op == 0xD3 || op == 0xF7 || op == 0xFF then DecodeExt(op, ext, rm)
      else DecodeAlu(op, rm, reg)
    else if |b| >= 4 && m & 0xC7 == 0x04 && b[3] == 0x38 && rex & 1 == 0 then
      DecodeMem(op, RegOf(RegField(rex, m)))
    else Bad
  }

  function DecodePlain(b: seq<bv8>): Decoded
    requires |b| >= 1
  {
    if b[0] == 0xC3 then Decoded(Ret, 1)
    else if b[0] & 0xF8 == 0x50 then Decoded(Push(RegOf(b[0] & 7)), 1)
    else if b[0] & 0xF8 == 0x58 then Decoded(Pop(RegOf(b[0] & 7)), 1)
    else if b[0] == 0x41 && |b| >= 2 && b[1] & 0xF8 == 0x50 then Decoded(Push(RegOf(8 | (b[1] & 7))), 2)
    else if b[0] == 0x41 && |b| >= 2 && b[1] & 0xF8 == 0x58 then Decoded(Pop(RegOf(8 | (b[1] & 7))), 2)
    else if b[0] == 0x25 && |b| >= 5 then Decoded(AndEax(Of32(b[1..])), 5)
    else if b[0] & 0xF8 == 0xB8 && |b| >= 5 then Decoded(MovImm32(RegOf(b[0] & 7), Of32(b[1..])), 5)
    else if b[0] == 0x0F && |b| >= 6 && b[1] == 0x8C then Decoded(Jl(IntOf(b[2..])), 6)
    else Bad
  }

  function DecodeFixed(b: seq<bv8>): Decoded {
    if |b| >= 3 && b[..3] == [0x45, 0x31, 0xD2] then Decoded(ClearR10, 3)
    else if |b| >= 4 && b[..4] == [0xF3, 0x0F, 0x6F, 0x02] then Decoded(LoadKey, 4)
    else if |b| < 5 then Bad
    else if b[..5] == [0xF3, 0x0F, 0x6F, 0x0C, 0x38] then Decoded(LoadLine, 5)
    else if b[..5] == [0x66, 0x0F, 0x38, 0xDC, 0xC8] then Decoded(AesEncLine, 5)
    else if b[..5] == [0xF3, 0x0F, 0x7F, 0x0C, 0x38] then Decoded(StoreLine, 5)
    else if b[..5] == [0x66, 0x48, 0x0F, 0x7E, 0xC9] then Decoded(MovqRcx, 5)
    else Bad
  }

  /** The instruction at the front of a byte string. */
  function Decode(b: seq<bv8>): Decoded {
    if |b| == 0 then Bad
    else if b[0] in {0x45, 0xF3, 0x66} then DecodeFixed(b)
    else if b[0] & 0xF8 == 0x48 then if |b| < 3 then Bad else DecodeRex(b)
    else DecodePlain(b)
  }

  // ----- decoding inverts encoding -----

  ghost predicate RoundTrips(i: XInstr, rest: seq<bv8>) {
    Decode(Encode(i) + rest) == Decoded(i, |Encode(i)|)
  }

  /** The three leading bytes of a two-operand instruction, as the decoder sees them. */
  lemma LeadingBytes(opcode: bv8, reg: bv8, rm: bv8, tail: seq<bv8>)
    requires reg < 16 && rm < 16
    ensures var b := EncodeRR(opcode, reg, rm) + tail;
            && |b| == 3 + |tail| && b[3..] == tail
            && b[0] == Rex(reg, rm) && b[1] == opcode && b[2] == ModRR(reg, rm)
            && Decode(b) == DecodeRex(b)
  {
    var b := EncodeRR(opcode, reg, rm) + tail;
    assert b[0] == Rex(reg, rm) && b[1] == opcode && b[2] == ModRR(reg, rm);
    Fields(reg, rm);
    NotFixed(b[0]);
  }

  lemma NotFixed(b: bv8)
    requires b & 0xF8 == 0x48
    ensures b !in {0x45, 0xF3, 0x66}
  {
  }

  lemma TripAlu(op: AluOp, dst: XReg, src: XReg, rest: seq<bv8>)
    ensures RoundTrips(Alu(op, dst, src), rest)
  {
    hide Rex, ModRR, RegField, RmField, RegBits, RegOf;
    LeadingBytes(AluOpcode(op), RegBits(src), RegBits(dst), rest);
    Fields(RegBits(src), RegBits(dst));
    assert AluOpcode(op) & 0xF8 != 0xB8;
  }

  lemma TripExt(i: XInstr, rest: seq<bv8>)
    requires i.RotCl? || i.Not? || i.MulRax?
    ensures RoundTrips(i, rest)
  {
    hide Rex, ModRR, RegField, RmField, RegBits, RegOf;
    var op: bv8, ext: bv8, rm := if i.RotCl? then 0xD3 else 0xF7,
      if i.RotCl? then Bit(i.right) else if i.Not? then 2 else 4, if i.MulRax? then i.src else i.dst;
    LeadingBytes(op, ext, RegBits(rm), rest);
    Fields(ext, RegBits(rm));
    assert ext & 7 == ext;
  }

  lemma TripExt8(i: XInstr, rest: seq<bv8>)
    requires i.RotImm? || i.ShrImm? || i.OrImm8?
    ensures RoundTrips(i, rest)
  {
    hide Rex, ModRR, RegField, RmField, RegBits, RegOf;
    var op: bv8, ext: bv8, k := if i.OrImm8? then 0x83 else 0xC1,
      if i.RotImm? then Bit(i.right) else if i.ShrImm? then 5 else 1, if i.OrImm8? then i.imm8 else i.k;
    LeadingBytes(op, ext, RegBits(i.dst), [k] + rest);
    assert Encode(i) + rest == EncodeRR(op, ext, RegBits(i.dst)) + ([k] + rest);
    Fields(ext, RegBits(i.dst));
    assert ext & 7 == ext;
  }

  lemma TripImm32(i: XInstr, rest: seq<bv8>)
    requires i.AddImm? || i.ImulImm?
    ensures RoundTrips(i, rest)
  {
    hide Rex, ModRR, RegField, RmField, RegBits, RegOf, Le32, Of32;
    var op: bv8, reg, rm := if i.AddImm? then 0x81 else 0x69, if i.AddImm? then 0 else RegBits(i.dst),
      if i.AddImm? then i.dst else i.src;
    LeadingBytes(op, reg, RegBits(rm), Le32(i.imm) + rest);
    assert Encode(i) + rest == EncodeRR(op, reg, RegBits(rm)) + (Le32(i.imm) + rest);
    Fields(reg, RegBits(rm));
    RoundTrip32(i.imm, rest);
  }

  lemma TripImul(dst: XReg, src: XReg, rest: seq<bv8>)
    ensures RoundTrips(Imul(dst, src), rest)
  {
    hide Rex, ModRR, RegField, RmField, RegBits, RegOf;
    Fields(RegBits(dst), RegBits(src));
    NotFixed(Rex(RegBits(dst), RegBits(src)));
  }

  lemma MemFields(reg: bv8)
    requires reg < 16
    ensures var rex, m := Rex(reg, 0), ModMem(reg);
            rex & 0xF8 == 0x48 && rex & 1 == 0 && m & 0xC7 == 0x04 && m & 0xC0 != 0xC0 && RegField(rex, m) == reg
  {
  }

  lemma TripMem(mop: MemOp, reg: XReg, rest: seq<bv8>)
    ensures RoundTrips(Mem(mop, reg), rest)
  {
    hide Rex, ModMem, RegField, RmField, RegBits, RegOf;
    MemFields(RegBits(reg));
    NotFixed(Rex(RegBits(reg), 0));
    assert MemOpcode(mop) & 0xF8 != 0xB8;
  }

  lemma WideFields(rm: bv8)
    requires rm < 16
    ensures var rex, op: bv8 := Rex(0, rm), 0xB8 | (rm & 7);
            rex & 0xF8 == 0x48 && op & 0xF8 == 0xB8 && ((rex & 1) << 3) | (op & 7) == rm
  {
  }

  lemma TripMov64(dst: XReg, imm: bv64, rest: seq<bv8>)
    ensures RoundTrips(MovImm64(dst, imm), rest)
  {
    hide Rex, RegBits, RegOf, Le64, Of64;
    WideFields(RegBits(dst));
    NotFixed(Rex(0, RegBits(dst)));
    RoundTrip64(imm, rest);
    var head := [Rex(0, RegBits(dst)), 0xB8 | (RegBits(dst) & 7)];
    assert Encode(MovImm64(dst, imm)) + rest == head + (Le64(imm) + rest);
    assert (head + (Le64(imm) + rest))[2..] == Le64(imm) + rest;
  }

  lemma LowReg(n: XReg)
    ensures RegBits(n) & 7 < 8
    ensures n < 8 <==> RegBits(n) < 8
    ensures n < 8 ==> RegBits(n) & 7 == RegBits(n)
    ensures n >= 8 ==> 8 | (RegBits(n) & 7) == RegBits(n)
  {
  }

  lemma LowByte(b: bv8)
    requires b < 8
    ensures (0x50 | b) & 0xF8 == 0x50 && (0x50 | b) & 7 == b && (0x58 | b) & 0xF8 == 0x58 && (0x58 | b) & 7 == b
    ensures (0xB8 | b) & 0xF8 == 0xB8 && (0xB8 | b) & 7 == b
    ensures 0x50 | b !in {0x45, 0xF3, 0x66, 0xC3} && 0x58 | b !in {0x45, 0xF3, 0x66, 0xC3}
    ensures 0xB8 | b !in {0x45, 0xF3, 0x66, 0xC3, 0x41, 0x25}
  {
  }

  lemma TripPushPop(i: XInstr, rest: seq<bv8>)
    requires i.Push? || i.Pop?
    ensures RoundTrips(i, rest)
  {
    hide RegBits, RegOf;
    LowReg(i.reg);
    LowByte(RegBits(i.reg) & 7);
  }

  lemma TripPlain32(i: XInstr, rest: seq<bv8>)
    requires i.MovImm32? || i.AndEax?
    requires Encodable(i)
    ensures RoundTrips(i, rest)
  {
    hide RegBits, RegOf, Le32, Of32;
    RoundTrip32(i.imm, rest);
    assert (Encode(i) + rest)[1..] == Le32(i.imm) + rest;
    if i.MovImm32? {
      LowReg(i.dst);
      LowByte(RegBits(i.dst));
    }
  }

  lemma TripJl(rel: int, rest: seq<bv8>)
    requires Encodable(Jl(rel))
    ensures RoundTrips(Jl(rel), rest)
  {
    hide LeInt, IntOf;
    RoundTripInt(rel, rest);
    var b := Encode(Jl(rel)) + rest;
    assert b[2..] == LeInt(rel) + rest;
    assert b[0] == 0x0F && b[1] == 0x8C;
  }

  lemma TripCmp(imm: bv32, rest: seq<bv8>)
    ensures RoundTrips(CmpR10(imm), rest)
  {
    hide Le32, Of32;
    RoundTrip32(imm, rest);
    var b := Encode(CmpR10(imm)) + rest;
    assert b[3..] == Le32(imm) + rest;
    assert b[0] == 0x49 && b[1] == 0x81 && b[2] == 0xFA;
    assert RmField(0x49, 0xFA) == 10;
  }

  lemma TripFixed(i: XInstr, rest: seq<bv8>)
    requires i in {LoadKey, LoadLine, AesEncLine, StoreLine, MovqRcx, ClearR10}
    ensures RoundTrips(i, rest)
  {
    var b := Encode(i) + rest;
    assert b[..|Encode(i)|] == Encode(i);
    if |b| >= 4 {
      assert b[3] == b[..4][3];
    }
    if |b| >= 5 {
      assert b[4] == b[..5][4] && b[2] == b[..5][2] && b[3] == b[..5][3];
    }
  }

  lemma TripIncRet(i: XInstr, rest: seq<bv8>)
    requires i.IncR10? || i.Ret?
    ensures RoundTrips(i, rest)
  {
    var b := Encode(i) + rest;
    if i.IncR10? {
      assert b[0] == 0x49 && b[1] == 0xFF && b[2] == 0xC2;
      assert RmField(0x49, 0xC2) == 10;
    } else {
      assert b[0] == 0xC3;
    }
  }

  /** Decoding the front of any byte string that starts with an encoded instruction gives
      back that instruction and its length. */
  lemma DecodeEncode(i: XInstr, rest: seq<bv8>)
    requires Encodable(i)
    ensures Decode(Encode(i) + rest) == Decoded(i, |Encode(i)|)
  {
    hide Decode, Encode;
    match i {
      case Alu(op, dst, src) => TripAlu(op, dst, src, rest);
      case RotCl(_, _) => TripExt(i, rest);
      case Not(_) => TripExt(i, rest);
      case MulRax(_) => TripExt(i, rest);
      case RotImm(_, _, _) => TripExt8(i, rest);
      case ShrImm(_, _) => TripExt8(i, rest);
      case OrImm8(_, _) => TripExt8(i, rest);
      case AddImm(_, _) => TripImm32(i, rest);
      case ImulImm(_, _, _) => TripImm32(i, rest);
      case Imul(dst, src) => TripImul(dst, src, rest);
      case Mem(mop, reg) => TripMem(mop, reg, rest);
      case MovImm64(dst, imm) => TripMov64(dst, imm, rest);
      case Push(_) => TripPushPop(i, rest);
      case Pop(_) => TripPushPop(i, rest);
      case MovImm32(_, _) => TripPlain32(i, rest);
      case AndEax(_) => TripPlain32(i, rest);
      case Jl(rel) => TripJl(rel, rest);
      case CmpR10(imm) => TripCmp(imm, rest);
      case IncR10 => TripIncRet(i, rest);
      case Ret => TripIncRet(i, rest);
      case _ => TripFixed(i, rest);
    }
  }
}
