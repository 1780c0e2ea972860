/** The instruction words of section C4.1 of the Arm Architecture Reference Manual (DDI 0487)
    that the compiler emits: encoder, decoder, and their round trip. */
module A64Bytes {
  import opened Octets
  import opened A64

  function RegBits(n: AReg): (b: bv32)
    ensures b < 32
    ensures RegOf(b) == n
  {
    match n
    case 0 => 0 case 1 => 1 case 2 => 2 case 3 => 3 case 4 => 4 case 5 => 5 case 6 => 6 case 7 => 7
    case 8 => 8 case 9 => 9 case 10 => 10 case 11 => 11 case 12 => 12 case 13 => 13 case 14 => 14 case 15 => 15
    case 16 => 16 case 17 => 17 case 18 => 18 case 19 => 19 case 20 => 20 case 21 => 21 case 22 => 22 case 23 => 23
    case 24 => 24 case 25 => 25 case 26 => 26 case 27 => 27 case 28 => 28 case 29 => 29 case 30 => 30 case _ => 31
  }

  function RegOf(b: bv32): AReg {
    match b
    case 0 => 0 case 1 => 1 case 2 => 2 case 3 => 3 case 4 => 4 case 5 => 5 case 6 => 6 case 7 => 7
    case 8 => 8 case 9 => 9 case 10 => 10 case 11 => 11 case 12 => 12 case 13 => 13 case 14 => 14 case 15 => 15
    case 16 => 16 case 17 => 17 case 18 => 18 case 19 => 19 case 20 => 20 case 21 => 21 case 22 => 22 case 23 => 23
    case 24 => 24 case 25 => 25 case 26 => 26 case 27 => 27 case 28 => 28 case 29 => 29 case 30 => 30 case _ => 31
  }

  /** Three registers in bits 16, 5 and 0. */
  function Word3(base: bv32, d: bv32, n: bv32, m: bv32): bv32 { base | (m << 16) | (n << 5) | d }

  function Word2(base: bv32, d: bv32, n: bv32): bv32 { base | (n << 5) | d }

  function FieldD(w: bv32): bv32 { w & 31 }

  function FieldN(w: bv32): bv32 { (w >> 5) & 31 }

  function FieldM(w: bv32): bv32 { (w >> 16) & 31 }

  function Field12(w: bv32): bv32 { (w >> 10) & 0xFFF }

  function Field16(w: bv32): bv16 { ((w >> 5) & 0xFFFF) as bv16 }

  /** The halfword lane of a move, and the shift amounts of the two shift forms. */
  function FieldLane(w: bv32): bv32 { (w >> 21) & 3 }

  function FieldRor(w: bv32): bv8 { ((w >> 10) & 63) as bv8 }

  function FieldLsr(w: bv32): bv8 { ((w >> 16) & 63) as bv8 }

  /** The three digits of a branch offset. */
  function Field0(w: bv32): bv8 { ((w >> 5) & 0xFF) as bv8 }

  function Field1(w: bv32): bv8 { ((w >> 13) & 0xFF) as bv8 }

  function Field2(w: bv32): bv8 { ((w >> 21) & 7) as bv8 }

  function MovzWord(v: bv16, d: bv32): bv32 { 0xD280_0000 | ((v as bv32) << 5) | d }

  function MovkWord(lane: bv32, v: bv16, d: bv32): bv32 { 0xF280_0000 | (lane << 21) | ((v as bv32) << 5) | d }

  function RorWord(k: bv8, d: bv32, n: bv32): bv32 { Word3(0x93C0_0000 | ((k as bv32) << 10), d, n, n) }

  function LsrWord(k: bv8, d: bv32, n: bv32): bv32 { Word2(0xD340_FC00 | ((k as bv32) << 16), d, n) }

  function AddWord(imm: bv32, d: bv32, n: bv32): bv32 { Word2(0x9100_0000 | (imm << 10), d, n) }

  function CmpWord(imm: bv32, n: bv32): bv32 { Word2(0xF100_0000 | (imm << 10), 31, n) }

  /** A pair transfer through the stack pointer, register 31. */
  function PairWord(base: bv32, t1: bv32, t2: bv32): bv32 { Word2(base | (t2 << 10), t1, 31) }

  function AluBase(op: Op3): bv32 {
    match op
    case AndR => 0x8A00_0000 case BicR => 0x8A20_0000 case OrrR => 0xAA00_0000 case EorR => 0xCA00_0000
    case AddR => 0x8B00_0000 case SubR => 0xCB00_0000
    case RorR => 0x9AC0_2C00 case MulR => 0x9B00_7C00 case UmulhR => 0x9BC0_7C00
  }

  function LaneBits(lane: nat): (b: bv32)
    ensures b < 4 && (1 <= lane <= 3 ==> LaneOf(b) == lane)
  {
    match lane case 1 => 1 case 2 => 2 case 3 => 3 case _ => 0
  }

  function LaneOf(b: bv32): nat { match b case 1 => 1 case 2 => 2 case 3 => 3 case _ => 0 }

  predicate Encodable(i: AInstr) {
    match i
    case AddImm(_, _, imm) => imm < 4096
    case CmpImm(_, imm) => imm < 4096
    case Movk(_, _, lane) => 1 <= lane <= 3
    case RorImm(_, _, k) => k < 64
    case LsrImm(_, _, k) => k < 64
    case BLt(off) => -0x4_0000 <= off < 0x4_0000
    case _ => true
  }

  function JoinBranch(d0: bv8, d1: bv8, d2: bv8): bv32 {
    0x5400_0000 | (((d0 as bv32) | ((d1 as bv32) << 8) | ((d2 as bv32) << 16)) << 5) | 11
  }

  /** B.LT with the low nineteen bits of the word offset. */
  function BranchWord(off: int): bv32 {
    var u := off % 0x8_0000;
    JoinBranch(Octet(Digit(u, 1)), Octet(Digit(u, 0x100)), Octet(Digit(u, 0x1_0000)))
  }

  function BranchOff(w: bv32): int {
    var u := Sum4(Field0(w) as int, Field1(w) as int, Field2(w) as int, 0);
    if u < 0x4_0000 then u else u - 0x8_0000
  }

  function Encode(i: AInstr): bv32 {
    match i
    case Alu(op, d, n, m) => Word3(AluBase(op), RegBits(d), RegBits(n), RegBits(m))
    case AddImm(d, n, imm) => AddWord(imm, RegBits(d), RegBits(n))
    case CmpImm(n, imm) => CmpWord(imm, RegBits(n))
    case Movz(d, v) => MovzWord(v, RegBits(d))
    case Movk(d, v, lane) => MovkWord(LaneBits(lane), v, RegBits(d))
    case RorImm(d, n, k) => RorWord(k, RegBits(d), RegBits(n))
    case LsrImm(d, n, k) => LsrWord(k, RegBits(d), RegBits(n))
    case OrrOne(d, n) => Word2(0xB240_0000, RegBits(d), RegBits(n))
    case Ldr(t, base, idx) => Word3(0xF860_6800, RegBits(t), RegBits(base), RegBits(idx))
    case Str(t, base, idx) => Word3(0xF820_6800, RegBits(t), RegBits(base), RegBits(idx))
    case LdrQ(t, base, idx) => Word3(0x3CE0_6800, RegBits(t), RegBits(base), RegBits(idx))
    case StrQ(t, base, idx) => Word3(0x3CA0_6800, RegBits(t), RegBits(base), RegBits(idx))
    case LdrQAt(t, base) => Word2(0x3DC0_0000, RegBits(t), RegBits(base))
    case Aese(t, n) => Word2(0x4E28_4800, RegBits(t), RegBits(n))
    case Aesmc(t, n) => Word2(0x4E28_6800, RegBits(t), RegBits(n))
    case Veor(t, n, m) => Word3(0x6E20_1C00, RegBits(t), RegBits(n), RegBits(m))
    case MoviZero(t) => 0x4F00_0400 | RegBits(t)
    case UmovLo(d, n) => Word2(0x4E08_3C00, RegBits(d), RegBits(n))
    case StpPre(t1, t2) => PairWord(0xA9BF_0000, RegBits(t1), RegBits(t2))
    case LdpPost(t1, t2) => PairWord(0xA8C1_0000, RegBits(t1), RegBits(t2))
    case BLt(off) => BranchWord(off)
    case Ret => 0xD65F_03C0
  }

  // ----- the decoder -----

  datatype Decoded = Bad | Decoded(i: AInstr)

  /** Register forms: bits 31-21 and 15-10 are the opcode. */
  function Decode3(w: bv32): Decoded {
    var op, d, n, m := w & 0xFFE0_FC00, RegOf(FieldD(w)), RegOf(FieldN(w)), RegOf(FieldM(w));
    if op == 0x8A00_0000 then Decoded(Alu(AndR, d, n, m))
    else if op == 0x8A20_0000 then Decoded(Alu(BicR, d, n, m))
    else if op == 0xAA00_0000 then Decoded(Alu(OrrR, d, n, m))
    else if op == 0xCA00_0000 then Decoded(Alu(EorR, d, n, m))
    else if op == 0x8B00_0000 then Decoded(Alu(AddR, d, n, m))
    else if op == 0xCB00_0000 then Decoded(Alu(SubR, d, n, m))
    else if op == 0x9AC0_2C00 then Decoded(Alu(RorR, d, n, m))
    else if op == 0x9B00_7C00 then Decoded(Alu(MulR, d, n, m))
    else if op == 0x9BC0_7C00 then Decoded(Alu(UmulhR, d, n, m))
    else if op == 0xF860_6800 then Decoded(Ldr(d, n, m))
    else if op == 0xF820_6800 then Decoded(Str(d, n, m))
    else if op == 0x3CE0_6800 then Decoded(LdrQ(d, n, m))
    else if op == 0x3CA0_6800 then Decoded(StrQ(d, n, m))
    else if op == 0x6E20_1C00 then Decoded(Veor(d, n, m))
    else Bad
  }

  /** Two-register forms: bits 31-10 are the opcode. */
  function Decode2(w: bv32): Decoded {
    var op, d, n := w & 0xFFFF_FC00, RegOf(FieldD(w)), RegOf(FieldN(w));
    if op == 0xB240_0000 then Decoded(OrrOne(d, n))
    else if op == 0x3DC0_0000 then Decoded(LdrQAt(d, n))
    else if op == 0x4E28_4800 then Decoded(Aese(d, n))
    else if op == 0x4E28_6800 then Decoded(Aesmc(d, n))
    else if op == 0x4E08_3C00 then Decoded(UmovLo(d, n))
    else Bad
  }

  function DecodeImm(w: bv32): Decoded {
    var d, n := RegOf(FieldD(w)), RegOf(FieldN(w));
    if w & 0xFFC0_0000 == 0x9100_0000 then Decoded(AddImm(d, n, Field12(w)))
    else if w & 0xFFC0_001F == 0xF100_001F then Decoded(CmpImm(n, Field12(w)))
    else if w & 0xFFE0_0000 == 0xD280_0000 then Decoded(Movz(d, Field16(w)))
    else if w & 0xFF80_0000 == 0xF280_0000 then Decoded(Movk(d, Field16(w), LaneOf(FieldLane(w))))
    else if w & 0xFFE0_0000 == 0x93C0_0000 && FieldM(w) == FieldN(w) then Decoded(RorImm(d, n, FieldRor(w)))
    else if w & 0xFFC0_FC00 == 0xD340_FC00 then Decoded(LsrImm(d, n, FieldLsr(w)))
    else Bad
  }

  function DecodeOther(w: bv32): Decoded {
    if w & 0xFFFF_FFE0 == 0x4F00_0400 then Decoded(MoviZero(RegOf(FieldD(w))))
    else if w & 0xFFFF_83E0 == 0xA9BF_03E0 then Decoded(StpPre(RegOf(FieldD(w)), RegOf((w >> 10) & 31)))
    else if w & 0xFFFF_83E0 == 0xA8C1_03E0 then Decoded(LdpPost(RegOf(FieldD(w)), RegOf((w >> 10) & 31)))
    else if w & 0xFF00_001F == 0x5400_000B then Decoded(BLt(BranchOff(w)))
    else if w == 0xD65F_03C0 then Decoded(Ret)
    else Bad
  }

  /** The top byte tells the four groups apart. */
  function Decode(w: bv32): Decoded {
    var top := w >> 24;
    if top == 0x91 || top == 0xF1 || top == 0xD2 || top == 0xF2 || top == 0x93 || top == 0xD3 then DecodeImm(w)
    else if top == 0xB2 || top == 0x3D || top == 0x4E then Decode2(w)
    else if top == 0x4F || top == 0xA9 || top == 0xA8 || top == 0x54 || top == 0xD6 then DecodeOther(w)
    else Decode3(w)
  }

  // ----- the round trip -----

  predicate IsBase3(base: bv32) {
    base == 0x8A00_0000 || base == 0x8A20_0000 || base == 0xAA00_0000 || base == 0xCA00_0000 || base == 0x8B00_0000
    || base == 0xCB00_0000 || base == 0x9AC0_2C00 || base == 0x9B00_7C00 || base == 0x9BC0_7C00 || base == 0xF860_6800
    || base == 0xF820_6800 || base == 0x3CE0_6800 || base == 0x3CA0_6800 || base == 0x6E20_1C00
  }

  predicate IsBase2(base: bv32) {
    base == 0xB240_0000 || base == 0x3DC0_0000 || base == 0x4E28_4800 || base == 0x4E28_6800 || base == 0x4E08_3C00
  }

  predicate Group3(w: bv32) {
    var top := w >> 24;
    top == 0x8A || top == 0xAA || top == 0xCA || top == 0x8B || top == 0xCB || top == 0x9A || top == 0x9B || top == 0xF8
    || top == 0x3C || top == 0x6E
  }

  lemma Fields3(base: bv32, d: bv32, n: bv32, m: bv32)
    requires d < 32 && n < 32 && m < 32 && IsBase3(base)
    ensures var w := Word3(base, d, n, m);
            && FieldD(w) == d && FieldN(w) == n && FieldM(w) == m
            && w & 0xFFE0_FC00 == base && Group3(w)
  {
  }

  lemma Fields2(base: bv32, d: bv32, n: bv32)
    requires d < 32 && n < 32 && IsBase2(base)
    ensures var w := Word2(base, d, n);
            && FieldD(w) == d && FieldN(w) == n && w & 0xFFFF_FC00 == base
            && (w >> 24 == 0xB2 || w >> 24 == 0x3D || w >> 24 == 0x4E)
  {
  }

  lemma IsGroup3(w: bv32)
    requires Group3(w)
    ensures Decode(w) == Decode3(w)
  {
    hide Decode3, Decode2, DecodeImm, DecodeOther;
  }

  lemma TripAlu(op: Op3, d: AReg, n: AReg, m: AReg)
    ensures Decode(Encode(Alu(op, d, n, m))) == Decoded(Alu(op, d, n, m))
  {
    hide Decode, RegBits, RegOf, Word3, FieldD, FieldN, FieldM, Group3;
    Fields3(AluBase(op), RegBits(d), RegBits(n), RegBits(m));
    IsGroup3(Encode(Alu(op, d, n, m)));
  }

  lemma TripMemory(i: AInstr)
    requires i.Ldr? || i.Str? || i.LdrQ? || i.StrQ? || i.Veor?
    ensures Decode(Encode(i)) == Decoded(i)
  {
    hide Decode, RegBits, RegOf, Word3, FieldD, FieldN, FieldM, Group3;
    match i {
      case Ldr(t, b, x) => Fields3(0xF860_6800, RegBits(t), RegBits(b), RegBits(x));
      case Str(t, b, x) => Fields3(0xF820_6800, RegBits(t), RegBits(b), RegBits(x));
      case LdrQ(t, b, x) => Fields3(0x3CE0_6800, RegBits(t), RegBits(b), RegBits(x));
      case StrQ(t, b, x) => Fields3(0x3CA0_6800, RegBits(t), RegBits(b), RegBits(x));
      case Veor(t, n, m) => Fields3(0x6E20_1C00, RegBits(t), RegBits(n), RegBits(m));
    }
    IsGroup3(Encode(i));
  }

  lemma IsGroup2(w: bv32)
    requires w >> 24 == 0xB2 || w >> 24 == 0x3D || w >> 24 == 0x4E
    ensures Decode(w) == Decode2(w)
  {
    hide Decode3, Decode2, DecodeImm, DecodeOther;
  }

  lemma TripTwo(i: AInstr)
    requires i.OrrOne? || i.LdrQAt? || i.Aese? || i.Aesmc? || i.UmovLo?
    ensures Decode(Encode(i)) == Decoded(i)
  {
    hide Decode, RegBits, RegOf, Word2, FieldD, FieldN;
    match i {
      case OrrOne(d, n) => Fields2(0xB240_0000, RegBits(d), RegBits(n));
      case LdrQAt(t, b) => Fields2(0x3DC0_0000, RegBits(t), RegBits(b));
      case Aese(t, n) => Fields2(0x4E28_4800, RegBits(t), RegBits(n));
      case Aesmc(t, n) => Fields2(0x4E28_6800, RegBits(t), RegBits(n));
      case UmovLo(d, n) => Fields2(0x4E08_3C00, RegBits(d), RegBits(n));
    }
    IsGroup2(Encode(i));
  }

  lemma FieldsAdd(imm: bv32, d: bv32, n: bv32)
    requires imm < 4096 && d < 32 && n < 32
    ensures var w := AddWord(imm, d, n);
            && w >> 24 == 0x91 && w & 0xFFC0_0000 == 0x9100_0000
            && FieldD(w) == d && FieldN(w) == n && Field12(w) == imm
  {
  }

  lemma FieldsCmp(imm: bv32, n: bv32)
    requires imm < 4096 && n < 32
    ensures var w := CmpWord(imm, n);
            && w >> 24 == 0xF1 && w & 0xFFC0_0000 != 0x9100_0000 && w & 0xFFC0_001F == 0xF100_001F
            && FieldN(w) == n && Field12(w) == imm
  {
  }

  lemma FieldsMovz(v: bv16, d: bv32)
    requires d < 32
    ensures var w := MovzWord(v, d);
            && w >> 24 == 0xD2 && w & 0xFFC0_0000 != 0x9100_0000 && w & 0xFFC0_001F != 0xF100_001F
            && w & 0xFFE0_0000 == 0xD280_0000 && FieldD(w) == d && Field16(w) == v
  {
  }

  lemma FieldsMovk(v: bv16, lane: bv32, d: bv32)
    requires d < 32 && lane < 4
    ensures var w := MovkWord(lane, v, d);
            && w >> 24 == 0xF2 && w & 0xFFC0_0000 != 0x9100_0000 && w & 0xFFC0_001F != 0xF100_001F
            && w & 0xFFE0_0000 != 0xD280_0000 && w & 0xFF80_0000 == 0xF280_0000
            && FieldD(w) == d && Field16(w) == v && FieldLane(w) == lane
  {
  }

  lemma FieldsRor(k: bv8, d: bv32, n: bv32)
    requires d < 32 && n < 32 && k < 64
    ensures var w := RorWord(k, d, n);
            && w >> 24 == 0x93 && w & 0xFFC0_0000 != 0x9100_0000 && w & 0xFFC0_001F != 0xF100_001F
            && w & 0xFFE0_0000 != 0xD280_0000 && w & 0xFF80_0000 != 0xF280_0000
            && w & 0xFFE0_0000 == 0x93C0_0000 && FieldM(w) == n && FieldN(w) == n && FieldD(w) == d
            && FieldRor(w) == k
  {
  }

  lemma FieldsLsr(k: bv8, d: bv32, n: bv32)
    requires d < 32 && n < 32 && k < 64
    ensures var w := LsrWord(k, d, n);
            && w >> 24 == 0xD3 && w & 0xFFC0_0000 != 0x9100_0000 && w & 0xFFC0_001F != 0xF100_001F
            && w & 0xFFE0_0000 != 0xD280_0000 && w & 0xFF80_0000 != 0xF280_0000 && w & 0xFFE0_0000 != 0x93C0_0000
            && w & 0xFFC0_FC00 == 0xD340_FC00 && FieldN(w) == n && FieldD(w) == d
            && FieldLsr(w) == k
  {
  }

  lemma IsGroupImm(w: bv32)
    requires w >> 24 == 0x91 || w >> 24 == 0xF1 || w >> 24 == 0xD2 || w >> 24 == 0xF2 || w >> 24 == 0x93
             || w >> 24 == 0xD3
    ensures Decode(w) == DecodeImm(w)
  {
    hide Decode3, Decode2, DecodeImm, DecodeOther;
  }

  lemma TripMove(i: AInstr)
    requires Encodable(i) && (i.Movz? || i.Movk?)
    ensures Decode(Encode(i)) == Decoded(i)
  {
    hide Decode, MovzWord, MovkWord, FieldLane, FieldRor, FieldLsr, RegBits, RegOf, FieldD, FieldN, FieldM, Field12,
      Field16, LaneBits, LaneOf;
    match i {
      case Movz(d, v) => FieldsMovz(v, RegBits(d));
      case Movk(d, v, lane) => FieldsMovk(v, LaneBits(lane), RegBits(d));
    }
    IsGroupImm(Encode(i));
  }

  lemma TripAdd(i: AInstr)
    requires Encodable(i) && (i.AddImm? || i.CmpImm?)
    ensures Decode(Encode(i)) == Decoded(i)
  {
    hide Decode, AddWord, CmpWord, FieldLane, FieldRor, FieldLsr, RegBits, RegOf, Word2, FieldD, FieldN, FieldM,
      Field12, Field16, LaneOf;
    match i {
      case AddImm(d, n, imm) => FieldsAdd(imm, RegBits(d), RegBits(n));
      case CmpImm(n, imm) => FieldsCmp(imm, RegBits(n));
    }
    IsGroupImm(Encode(i));
  }

  lemma TripShift(i: AInstr)
    requires Encodable(i) && (i.RorImm? || i.LsrImm?)
    ensures Decode(Encode(i)) == Decoded(i)
  {
    hide Decode, RorWord, LsrWord, FieldLane, FieldRor, FieldLsr, RegBits, RegOf, Word2, Word3, FieldD, FieldN, FieldM,
      Field12, Field16, LaneOf;
    match i {
      case RorImm(d, n, k) => FieldsRor(k, RegBits(d), RegBits(n));
      case LsrImm(d, n, k) => FieldsLsr(k, RegBits(d), RegBits(n));
    }
    IsGroupImm(Encode(i));
  }

  lemma FieldsPair(base: bv32, t1: bv32, t2: bv32)
    requires t1 < 32 && t2 < 32 && (base == 0xA9BF_0000 || base == 0xA8C1_0000)
    ensures var w := PairWord(base, t1, t2);
            && w >> 24 == base >> 24 && w & 0xFFFF_FFE0 != 0x4F00_0400 && w & 0xFFFF_83E0 == base | 0x3E0
            && FieldD(w) == t1 && (w >> 10) & 31 == t2
  {
  }

  lemma FieldsMovi(t: bv32)
    requires t < 32
    ensures var w := 0x4F00_0400 | t; w >> 24 == 0x4F && w & 0xFFFF_FFE0 == 0x4F00_0400 && FieldD(w) == t
  {
  }

  lemma IsGroupOther(w: bv32)
    requires w >> 24 == 0x4F || w >> 24 == 0xA9 || w >> 24 == 0xA8 || w >> 24 == 0x54 || w >> 24 == 0xD6
    ensures Decode(w) == DecodeOther(w)
  {
    hide Decode3, Decode2, DecodeImm, DecodeOther;
  }

  lemma TripPair(i: AInstr)
    requires i.StpPre? || i.LdpPost? || i.MoviZero? || i.Ret?
    ensures Decode(Encode(i)) == Decoded(i)
  {
    hide Decode, PairWord, BranchOff, RegBits, RegOf, Word2, FieldD;
    match i {
      case StpPre(t1, t2) => FieldsPair(0xA9BF_0000, RegBits(t1), RegBits(t2));
      case LdpPost(t1, t2) => FieldsPair(0xA8C1_0000, RegBits(t1), RegBits(t2));
      case MoviZero(t) => FieldsMovi(RegBits(t));
      case Ret =>
    }
    IsGroupOther(Encode(i));
  }

  lemma FieldsBranch(d0: bv8, d1: bv8, d2: bv8)
    requires d2 < 8
    ensures var w := JoinBranch(d0, d1, d2);
            && w >> 24 == 0x54 && w & 0xFFFF_FFE0 != 0x4F00_0400
            && w & 0xFFFF_83E0 != 0xA9BF_03E0 && w & 0xFFFF_83E0 != 0xA8C1_03E0 && w & 0xFF00_001F == 0x5400_000B
            && Field0(w) == d0 && Field1(w) == d1 && Field2(w) == d2
  {
  }

  lemma SmallOctet(x: bv8)
    requires x as int < 8
    ensures x < 8
  {
  }

  lemma BranchTrip(off: int)
    requires Encodable(BLt(off))
    ensures var w := BranchWord(off);
            && BranchOff(w) == off && w >> 24 == 0x54 && w & 0xFFFF_FFE0 != 0x4F00_0400
            && w & 0xFFFF_83E0 != 0xA9BF_03E0 && w & 0xFFFF_83E0 != 0xA8C1_03E0 && w & 0xFF00_001F == 0x5400_000B
  {
    hide Octet, Digit, Sum4, JoinBranch, Field0, Field1, Field2;
    var u := off % 0x8_0000;
    var d0, d1, d2 := Octet(Digit(u, 1)), Octet(Digit(u, 0x100)), Octet(Digit(u, 0x1_0000));
    OctetValue(Digit(u, 1));
    OctetValue(Digit(u, 0x100));
    OctetValue(Digit(u, 0x1_0000));
    ThirdDigit(u);
    SmallOctet(d2);
    FieldsBranch(d0, d1, d2);
  }

  lemma TripBranch(off: int)
    requires Encodable(BLt(off))
    ensures Decode(Encode(BLt(off))) == Decoded(BLt(off))
  {
    hide Decode, BranchWord, BranchOff, RegOf, FieldD;
    BranchTrip(off);
    IsGroupOther(Encode(BLt(off)));
  }

  lemma ThirdDigit(u: nat)
    requires u < 0x8_0000
    ensures Digit(u, 0x1_0000) < 8 && Sum4(Digit(u, 1), Digit(u, 0x100), Digit(u, 0x1_0000), 0) == u
  {
    var q := u / 0x100;
    assert u == 0x100 * q + u % 0x100;
    var r := q / 0x100;
    assert q == 0x100 * r + q % 0x100;
    assert u / 0x1_0000 == r;
  }

  lemma DecodeEncode(i: AInstr)
    requires Encodable(i)
    ensures Decode(Encode(i)) == Decoded(i)
  {
    hide Decode, Encode;
    match i {
      case Alu(op, d, n, m) => TripAlu(op, d, n, m);
      case Ldr(_, _, _) => TripMemory(i);
      case Str(_, _, _) => TripMemory(i);
      case LdrQ(_, _, _) => TripMemory(i);
      case StrQ(_, _, _) => TripMemory(i);
      case Veor(_, _, _) => TripMemory(i);
      case OrrOne(_, _) => TripTwo(i);
      case LdrQAt(_, _) => TripTwo(i);
      case Aese(_, _) => TripTwo(i);
      case Aesmc(_, _) => TripTwo(i);
      case UmovLo(_, _) => TripTwo(i);
      case StpPre(_, _) => TripPair(i);
      case LdpPost(_, _) => TripPair(i);
      case MoviZero(_) => TripPair(i);
      case Ret => TripPair(i);
      case BLt(off) => TripBranch(off);
      case AddImm(_, _, _) => TripAdd(i);
      case CmpImm(_, _) => TripAdd(i);
      case Movz(_, _) => TripMove(i);
      case Movk(_, _, _) => TripMove(i);
      case RorImm(_, _, _) => TripShift(i);
      case LsrImm(_, _, _) => TripShift(i);
    }
  }
}
