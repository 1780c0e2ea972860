/** The A64 emitter: instruction words written in place into a caller's buffer. */
module A64Emitter {
  import opened Octets
  import opened Words
  import opened Hardware
  import opened Isochron
  import opened A64
  import opened A64Bytes
  import opened A64Compile
  import opened A64Program
  import opened A64Run
  import opened A64Correct

  /** Writes into the window of `limit` bytes at `base` and nowhere else. */
  class Emitter {
    const buf: array<bv8>
    const base: nat
    const limit: nat
    /** Words written so far. */
    var at: nat
    /** The instructions they are, and the bytes on either side of the window. */
    ghost var code: seq<AInstr>
    ghost const before: seq<bv8>
    ghost const after: seq<bv8>

    ghost predicate Valid()
      reads this, buf
    {
      && at == |code| && 4 * at <= limit && base + limit <= buf.Length
      && buf[base..base + 4 * at] == EncodeAll(code)
      && buf[..base] == before && buf[base + limit..] == after
    }

    /** Whole words left in the window. */
    ghost function Room(): int
      reads this
    {
      limit / 4 - at
    }

    constructor (out: array<bv8>, base: nat, limit: nat)
      requires base + limit <= out.Length
      ensures Valid() && buf == out && this.base == base && this.limit == limit && at == 0 && code == []
      ensures before == out[..base] && after == out[base + limit..]
    {
      buf := out;
      this.base := base;
      this.limit := limit;
      at := 0;
      code := [];
      before := out[..base];
      after := out[base + limit..];
    }

    lemma Written()
      requires Valid()
      ensures base + limit <= buf.Length && 4 * at <= limit && buf[base..base + 4 * at] == EncodeAll(code)
      ensures buf[..base] == before && buf[base + limit..] == after
    {
    }

    method Ei(w: bv32, ghost i: AInstr)
      requires Valid() && w == Encode(i) && 1 <= Room()
      modifies this, buf
      ensures Valid() && code == old(code) + [i] && at == old(at) + 1
    {
      hide Encode, EncodeAll, Le32;
      var b, bytes := base + 4 * at, Le32(w);
      ghost var was := buf[base..b];
      buf[b] := bytes[0];
      buf[b + 1] := bytes[1];
      buf[b + 2] := bytes[2];
      buf[b + 3] := bytes[3];
      at := at + 1;
      assert buf[base..base + 4 * at] == was + bytes;
      assert buf[..base] == before && buf[base + limit..] == after;
      EncodeAppend(code, [i]);
      EncodeOne(i);
      code := code + [i];
    }

    method AAnd(d: AReg, n: AReg, m: AReg)
      requires Valid() && 1 <= Room()
      modifies this, buf
      ensures Valid() && code == old(code) + [Alu(AndR, d, n, m)] && at == old(at) + 1
    {
      hide EncodeAll, RegBits, Valid;
      Ei(0x8A00_0000 | (RegBits(m) << 16) | (RegBits(n) << 5) | RegBits(d), Alu(AndR, d, n, m));
    }

    method ABic(d: AReg, n: AReg, m: AReg)
      requires Valid() && 1 <= Room()
      modifies this, buf
      ensures Valid() && code == old(code) + [Alu(BicR, d, n, m)] && at == old(at) + 1
    {
      hide EncodeAll, RegBits, Valid;
      Ei(0x8A20_0000 | (RegBits(m) << 16) | (RegBits(n) << 5) | RegBits(d), Alu(BicR, d, n, m));
    }

    method AOrr(d: AReg, n: AReg, m: AReg)
      requires Valid() && 1 <= Room()
      modifies this, buf
      ensures Valid() && code == old(code) + [Alu(OrrR, d, n, m)] && at == old(at) + 1
    {
      hide EncodeAll, RegBits, Valid;
      Ei(0xAA00_0000 | (RegBits(m) << 16) | (RegBits(n) << 5) | RegBits(d), Alu(OrrR, d, n, m));
    }

    method AEor(d: AReg, n: AReg, m: AReg)
      requires Valid() && 1 <= Room()
      modifies this, buf
      ensures Valid() && code == old(code) + [Alu(EorR, d, n, m)] && at == old(at) + 1
    {
      hide EncodeAll, RegBits, Valid;
      Ei(0xCA00_0000 | (RegBits(m) << 16) | (RegBits(n) << 5) | RegBits(d), Alu(EorR, d, n, m));
    }

    method AAdd(d: AReg, n: AReg, m: AReg)
      requires Valid() && 1 <= Room()
      modifies this, buf
      ensures Valid() && code == old(code) + [Alu(AddR, d, n, m)] && at == old(at) + 1
    {
      hide EncodeAll, RegBits, Valid;
      Ei(0x8B00_0000 | (RegBits(m) << 16) | (RegBits(n) << 5) | RegBits(d), Alu(AddR, d, n, m));
    }

    method ASub(d: AReg, n: AReg, m: AReg)
      requires Valid() && 1 <= Room()
      modifies this, buf
      ensures Valid() && code == old(code) + [Alu(SubR, d, n, m)] && at == old(at) + 1
    {
      hide EncodeAll, RegBits, Valid;
      Ei(0xCB00_0000 | (RegBits(m) << 16) | (RegBits(n) << 5) | RegBits(d), Alu(SubR, d, n, m));
    }

    method ARorR(d: AReg, n: AReg, m: AReg)
      requires Valid() && 1 <= Room()
      modifies this, buf
      ensures Valid() && code == old(code) + [Alu(RorR, d, n, m)] && at == old(at) + 1
    {
      hide EncodeAll, RegBits, Valid;
      Ei(0x9AC0_2C00 | (RegBits(m) << 16) | (RegBits(n) << 5) | RegBits(d), Alu(RorR, d, n, m));
    }

    method AMul(d: AReg, n: AReg, m: AReg)
      requires Valid() && 1 <= Room()
      modifies this, buf
      ensures Valid() && code == old(code) + [Alu(MulR, d, n, m)] && at == old(at) + 1
    {
      hide EncodeAll, RegBits, Valid;
      Ei(0x9B00_7C00 | (RegBits(m) << 16) | (RegBits(n) << 5) | RegBits(d), Alu(MulR, d, n, m));
    }

    method AUmulh(d: AReg, n: AReg, m: AReg)
      requires Valid() && 1 <= Room()
      modifies this, buf
      ensures Valid() && code == old(code) + [Alu(UmulhR, d, n, m)] && at == old(at) + 1
    {
      hide EncodeAll, RegBits, Valid;
      Ei(0x9BC0_7C00 | (RegBits(m) << 16) | (RegBits(n) << 5) | RegBits(d), Alu(UmulhR, d, n, m));
    }

    method AAddi(d: AReg, n: AReg, imm: bv32)
      requires Valid() && 1 <= Room() && imm < 4096
      modifies this, buf
      ensures Valid() && code == old(code) + [AddImm(d, n, imm)] && at == old(at) + 1
    {
      hide EncodeAll, RegBits, Valid;
      Ei(0x9100_0000 | ((imm & 0xFFF) << 10) | (RegBits(n) << 5) | RegBits(d), AddImm(d, n, imm));
    }

    method ACmpi(n: AReg, imm: bv32)
      requires Valid() && 1 <= Room() && imm < 4096
      modifies this, buf
      ensures Valid() && code == old(code) + [CmpImm(n, imm)] && at == old(at) + 1
    {
      hide EncodeAll, RegBits, Valid;
      Ei(0xF100_0000 | ((imm & 0xFFF) << 10) | (RegBits(n) << 5) | 31, CmpImm(n, imm));
    }

    method AMovz(d: AReg, v: bv16)
      requires Valid() && 1 <= Room()
      modifies this, buf
      ensures Valid() && code == old(code) + [Movz(d, v)] && at == old(at) + 1
    {
      hide EncodeAll, RegBits, Valid;
      Ei(0xD280_0000 | ((v as bv32) << 5) | RegBits(d), Movz(d, v));
    }

    method AMovk(d: AReg, v: bv16, lane: nat)
      requires Valid() && 1 <= Room()
      modifies this, buf
      ensures Valid() && code == old(code) + [Movk(d, v, lane)] && at == old(at) + 1
    {
      hide EncodeAll, RegBits, Valid;
      Ei(0xF280_0000 | (LaneBits(lane) << 21) | ((v as bv32) << 5) | RegBits(d), Movk(d, v, lane));
    }

    method ARorI(d: AReg, n: AReg, k: bv8)
      requires Valid() && 1 <= Room() && k < 64
      modifies this, buf
      ensures Valid() && code == old(code) + [RorImm(d, n, k)] && at == old(at) + 1
    {
      hide EncodeAll, RegBits, Valid;
      Ei(0x93C0_0000 | (RegBits(n) << 16) | (((k & 63) as bv32) << 10) | (RegBits(n) << 5) | RegBits(d),
         RorImm(d, n, k));
    }

    method ALsrI(d: AReg, n: AReg, k: bv8)
      requires Valid() && 1 <= Room() && k < 64
      modifies this, buf
      ensures Valid() && code == old(code) + [LsrImm(d, n, k)] && at == old(at) + 1
    {
      hide EncodeAll, RegBits, Valid;
      Ei(0xD340_0000 | (((k & 63) as bv32) << 16) | (63 << 10) | (RegBits(n) << 5) | RegBits(d), LsrImm(d, n, k));
    }

    method AOrr1(d: AReg, n: AReg)
      requires Valid() && 1 <= Room()
      modifies this, buf
      ensures Valid() && code == old(code) + [OrrOne(d, n)] && at == old(at) + 1
    {
      hide EncodeAll, RegBits, Valid;
      Ei(0xB240_0000 | (RegBits(n) << 5) | RegBits(d), OrrOne(d, n));
    }

    method AUmovD0(d: AReg, n: AReg)
      requires Valid() && 1 <= Room()
      modifies this, buf
      ensures Valid() && code == old(code) + [UmovLo(d, n)] && at == old(at) + 1
    {
      hide EncodeAll, RegBits, Valid;
      Ei(0x4E08_3C00 | (RegBits(n) << 5) | RegBits(d), UmovLo(d, n));
    }

    method ALdr(d: AReg, n: AReg, m: AReg)
      requires Valid() && 1 <= Room()
      modifies this, buf
      ensures Valid() && code == old(code) + [Ldr(d, n, m)] && at == old(at) + 1
    {
      hide EncodeAll, RegBits, Valid;
      Ei(0xF860_6800 | (RegBits(m) << 16) | (RegBits(n) << 5) | RegBits(d), Ldr(d, n, m));
    }

    method AStr(d: AReg, n: AReg, m: AReg)
      requires Valid() && 1 <= Room()
      modifies this, buf
      ensures Valid() && code == old(code) + [Str(d, n, m)] && at == old(at) + 1
    {
      hide EncodeAll, RegBits, Valid;
      Ei(0xF820_6800 | (RegBits(m) << 16) | (RegBits(n) << 5) | RegBits(d), Str(d, n, m));
    }

    method ALdrQ(d: AReg, n: AReg, m: AReg)
      requires Valid() && 1 <= Room()
      modifies this, buf
      ensures Valid() && code == old(code) + [LdrQ(d, n, m)] && at == old(at) + 1
    {
      hide EncodeAll, RegBits, Valid;
      Ei(0x3CE0_6800 | (RegBits(m) << 16) | (RegBits(n) << 5) | RegBits(d), LdrQ(d, n, m));
    }

    method AStrQ(d: AReg, n: AReg, m: AReg)
      requires Valid() && 1 <= Room()
      modifies this, buf
      ensures Valid() && code == old(code) + [StrQ(d, n, m)] && at == old(at) + 1
    {
      hide EncodeAll, RegBits, Valid;
      Ei(0x3CA0_6800 | (RegBits(m) << 16) | (RegBits(n) << 5) | RegBits(d), StrQ(d, n, m));
    }

    method AVeor(d: AReg, n: AReg, m: AReg)
      requires Valid() && 1 <= Room()
      modifies this, buf
      ensures Valid() && code == old(code) + [Veor(d, n, m)] && at == old(at) + 1
    {
      hide EncodeAll, RegBits, Valid;
      Ei(0x6E20_1C00 | (RegBits(m) << 16) | (RegBits(n) << 5) | RegBits(d), Veor(d, n, m));
    }

    method ALdrQOff(t: AReg, base: AReg)
      requires Valid() && 1 <= Room()
      modifies this, buf
      ensures Valid() && code == old(code) + [LdrQAt(t, base)] && at == old(at) + 1
    {
      hide EncodeAll, RegBits, Valid;
      Ei(0x3DC0_0000 | (RegBits(base) << 5) | RegBits(t), LdrQAt(t, base));
    }

    method AAese(d: AReg, n: AReg)
      requires Valid() && 1 <= Room()
      modifies this, buf
      ensures Valid() && code == old(code) + [Aese(d, n)] && at == old(at) + 1
    {
      hide EncodeAll, RegBits, Valid;
      Ei(0x4E28_4800 | (RegBits(n) << 5) | RegBits(d), Aese(d, n));
    }

    method AAesmc(d: AReg, n: AReg)
      requires Valid() && 1 <= Room()
      modifies this, buf
      ensures Valid() && code == old(code) + [Aesmc(d, n)] && at == old(at) + 1
    {
      hide EncodeAll, RegBits, Valid;
      Ei(0x4E28_6800 | (RegBits(n) << 5) | RegBits(d), Aesmc(d, n));
    }

    method AMovi0(d: AReg)
      requires Valid() && 1 <= Room()
      modifies this, buf
      ensures Valid() && code == old(code) + [MoviZero(d)] && at == old(at) + 1
    {
      hide EncodeAll, RegBits, Valid;
      Ei(0x4F00_0400 | RegBits(d), MoviZero(d));
    }

    method AStpPre(t1: AReg, t2: AReg)
      requires Valid() && 1 <= Room()
      modifies this, buf
      ensures Valid() && code == old(code) + [StpPre(t1, t2)] && at == old(at) + 1
    {
      hide EncodeAll, RegBits, Valid;
      Ei(0xA980_0000 | (0x7E << 15) | (RegBits(t2) << 10) | (31 << 5) | RegBits(t1), StpPre(t1, t2));
    }

    method ALdpPost(t1: AReg, t2: AReg)
      requires Valid() && 1 <= Room()
      modifies this, buf
      ensures Valid() && code == old(code) + [LdpPost(t1, t2)] && at == old(at) + 1
    {
      hide EncodeAll, RegBits, Valid;
      Ei(0xA8C0_0000 | (0x02 << 15) | (RegBits(t2) << 10) | (31 << 5) | RegBits(t1), LdpPost(t1, t2));
    }

    method AImm32(d: AReg, v: bv32)
      requires Valid() && 2 <= Room()
      modifies this, buf
      ensures Valid() && code == old(code) + Imm32(d, v) && at == old(at) + 2
    {
      hide Valid, Hw.Lo, Hw.Hi;
      AMovz(d, Hw.Lo(v));
      AMovk(d, Hw.Hi(v), 1);
    }

    method AImm64(d: AReg, v: bv64)
      requires Valid() && 4 <= Room()
      modifies this, buf
      ensures Valid() && code == old(code) + Imm64(d, v) && at == old(at) + 4
    {
      hide Valid, Piece;
      AMovz(d, Piece(v, 0));
      AMovk(d, Piece(v, 16), 1);
      AMovk(d, Piece(v, 32), 2);
      AMovk(d, Piece(v, 48), 3);
    }

    method AAddr(src: AReg, k: bv32, mask: AReg, tmp: AReg)
      requires Valid() && 6 <= Room()
      modifies this, buf
      ensures Valid() && code == old(code) + Addr(src, k, mask, tmp) && at == old(at) + 6
    {
      hide Valid, Imm32;
      AImm32(tmp, k);
      AEor(T0, src, tmp);
      AMul(T0, T0, MULTIPLIER);
      ALsrI(T0, T0, 40);
      AAnd(T0, T0, mask);
    }

    method EmitImmOp(op: Op3, d: AReg, tmp: AReg, imm: bv32)
      requires Valid() && 3 <= Room() && op in {EorR, AddR}
      modifies this, buf
      ensures Valid() && code == old(code) + ImmOp(op, d, tmp, imm) && at == old(at) + 3
    {
      hide Valid, Imm32;
      AImm32(tmp, imm);
      if op == EorR {
        AEor(d, d, tmp);
      } else {
        AAdd(d, d, tmp);
      }
    }

    method EmitArith(slot: Instr)
      requires Valid() && slot.op in {Add, Sub, Xor} && A64Len(slot.op) / 4 <= Room()
      modifies this, buf
      ensures Valid() && code == old(code) + SlotCode(slot) && at == old(at) + A64Len(slot.op) / 4
    {
      hide Valid, ImmOp;
      var d, s, imm := Pin(slot.d), Pin(slot.s), slot.imm;
      match slot.op {
        case Add =>
          AAdd(d, d, s);
          EmitImmOp(EorR, d, T0, imm);
        case Sub =>
          ASub(d, d, s);
          EmitImmOp(EorR, d, T0, imm);
        case Xor =>
          AEor(d, d, s);
          EmitImmOp(AddR, d, T0, imm);
      }
    }

    method EmitLogic(slot: Instr)
      requires Valid() && slot.op in {Or, And, Andn} && A64Len(slot.op) / 4 <= Room()
      modifies this, buf
      ensures Valid() && code == old(code) + SlotCode(slot) && at == old(at) + A64Len(slot.op) / 4
    {
      hide Valid, Imm32;
      var d, s, imm := Pin(slot.d), Pin(slot.s), slot.imm;
      match slot.op {
        case Or =>
          ARorI(d, d, 64 - 17);
          AImm32(T0, imm);
          AOrr(T0, s, T0);
        case And =>
          ARorI(d, d, 64 - 23);
          AImm32(T0, imm);
          AAnd(T0, s, T0);
        case Andn =>
          ARorI(d, d, 64 - 29);
          AImm32(T0, imm);
          ABic(T0, T0, s);
      }
      AEor(d, d, T0);
    }

    method EmitRotate(slot: Instr)
      requires Valid() && slot.op in {Rolx, Rola, Rorx, Rora} && A64Len(slot.op) / 4 <= Room()
      modifies this, buf
      ensures Valid() && code == old(code) + SlotCode(slot) && at == old(at) + A64Len(slot.op) / 4
    {
      hide Valid, Turn, Complement;
      var d, s, imm := Pin(slot.d), Pin(slot.s), slot.imm;
      ComplementSmall(imm);
      match slot.op {
        case Rolx =>
          ARorI(d, d, Complement(imm));
          AEor(d, d, s);
        case Rola =>
          ARorI(d, d, Complement(imm));
          AAdd(d, d, s);
        case Rorx =>
          ARorI(d, d, Turn(imm));
          AEor(d, d, s);
        case Rora =>
          ARorI(d, d, Turn(imm));
          AAdd(d, d, s);
      }
    }

    method EmitRotateBy(slot: Instr)
      requires Valid() && slot.op in {Vrol, Vror} && A64Len(slot.op) / 4 <= Room()
      modifies this, buf
      ensures Valid() && code == old(code) + SlotCode(slot) && at == old(at) + A64Len(slot.op) / 4
    {
      hide Valid, ImmOp;
      var d, s, imm := Pin(slot.d), Pin(slot.s), slot.imm;
      match slot.op {
        case Vrol =>
          ASub(T0, 31, s);
          ARorR(d, d, T0);
          EmitImmOp(EorR, d, T1, imm);
        case Vror =>
          ARorR(d, d, s);
          EmitImmOp(AddR, d, T1, imm);
      }
    }

    method EmitLoad(op: Op3, d: AReg)
      requires Valid() && 2 <= Room() && op in {EorR, AddR}
      modifies this, buf
      ensures Valid() && code == old(code) + LoadCode(op, d) && at == old(at) + 2
    {
      hide Valid;
      ALdr(T1, PAD, T0);
      if op == EorR {
        AEor(d, d, T1);
      } else {
        AAdd(d, d, T1);
      }
    }

    method EmitUpdate(op: Op3, x: AReg)
      requires Valid() && 3 <= Room() && op in {EorR, AddR}
      modifies this, buf
      ensures Valid() && code == old(code) + UpdateCode(op, x) && at == old(at) + 3
    {
      hide Valid;
      ALdr(T1, PAD, T0);
      if op == EorR {
        AEor(T1, T1, x);
      } else {
        AAdd(T1, T1, x);
      }
      AStr(T1, PAD, T0);
    }

    method EmitAccess(slot: Instr)
      requires Valid() && slot.op in {Load, Loadb, Store, Storeb} && A64Len(slot.op) / 4 <= Room()
      modifies this, buf
      ensures Valid() && code == old(code) + SlotCode(slot) && at == old(at) + A64Len(slot.op) / 4
    {
      hide Valid, Addr, LoadCode, UpdateCode, AddrKey;
      var d, s, imm := Pin(slot.d), Pin(slot.s), slot.imm;
      var k := AddrKey(slot.op, imm);
      match slot.op {
        case Load | Loadb =>
          AAddr(s, k, MASK, T1);
          EmitLoad(EorR, d);
        case Store | Storeb =>
          AAddr(d, k, MASK, T1);
          EmitUpdate(AddR, s);
      }
    }

    method EmitRmw(slot: Instr)
      requires Valid() && slot.op in {Rmw, Rmwb} && A64Len(slot.op) / 4 <= Room()
      modifies this, buf
      ensures Valid() && code == old(code) + SlotCode(slot) && at == old(at) + A64Len(slot.op) / 4
    {
      hide Valid, Addr, LoadCode, UpdateCode, AddrKey;
      var d, s, imm := Pin(slot.d), Pin(slot.s), slot.imm;
      AAddr(s, AddrKey(slot.op, imm), MASK, T1);
      match slot.op {
        case Rmw =>
          EmitUpdate(AddR, d);
          AAddr(T1, C2, MASK, T2);
          EmitLoad(EorR, d);
        case Rmwb =>
          EmitUpdate(EorR, d);
          AAddr(T1, C1, MASK, T2);
          EmitLoad(AddR, d);
      }
    }

    method EmitMultiply(slot: Instr)
      requires Valid() && slot.op in {Mullo, Mulhi} && A64Len(slot.op) / 4 <= Room()
      modifies this, buf
      ensures Valid() && code == old(code) + SlotCode(slot) && at == old(at) + A64Len(slot.op) / 4
    {
      hide Valid, ImmOp;
      var d, s, imm := Pin(slot.d), Pin(slot.s), slot.imm;
      AOrr1(T0, s);
      match slot.op {
        case Mullo =>
          AMul(d, d, T0);
        case Mulhi =>
          AUmulh(d, d, T0);
          EmitImmOp(EorR, d, T1, imm);
      }
    }

    method EmitLine(d: AReg)
      requires Valid() && 7 <= Room()
      modifies this, buf
      ensures Valid() && code == old(code) + LineCode(d) && at == old(at) + 7
    {
      hide Valid;
      ALdrQ(1, PAD, T0);
      AAese(1, 2);
      AAesmc(1, 1);
      AVeor(1, 1, 0);
      AStrQ(1, PAD, T0);
      AUmovD0(T1, 1);
      AEor(d, d, T1);
    }

    method EmitAes(slot: Instr)
      requires Valid() && slot.op in {Aesr} && A64Len(slot.op) / 4 <= Room()
      modifies this, buf
      ensures Valid() && code == old(code) + SlotCode(slot) && at == old(at) + A64Len(slot.op) / 4
    {
      hide Valid, Addr, LineCode, AddrKey;
      var d, s, imm := Pin(slot.d), Pin(slot.s), slot.imm;
      AAddr(s, AddrKey(slot.op, imm), LINE, T1);
      EmitLine(d);
    }

    /** One slot: its code, in exactly the words the length table gives it. */
    method EmitOne(slot: Instr)
      requires Valid() && A64Len(slot.op) / 4 <= Room()
      modifies this, buf
      ensures Valid() && code == old(code) + SlotCode(slot) && at == old(at) + A64Len(slot.op) / 4
    {
      hide Valid, SlotCode, A64Len;
      match slot.op {
        case Add | Sub | Xor => EmitArith(slot);
        case Or | And | Andn => EmitLogic(slot);
        case Rolx | Rola | Rorx | Rora => EmitRotate(slot);
        case Vrol | Vror => EmitRotateBy(slot);
        case Load | Loadb | Store | Storeb => EmitAccess(slot);
        case Rmw | Rmwb => EmitRmw(slot);
        case Mullo | Mulhi => EmitMultiply(slot);
        case Aesr => EmitAes(slot);
      }
    }

    method EmitSave()
      requires Valid() && 5 <= Room()
      modifies this, buf
      ensures Valid() && code == old(code) + SaveCode(5) && at == old(at) + 5
    {
      hide Valid;
      for i := 0 to 5
        invariant Valid() && code == old(code) + SaveCode(i) && at == old(at) + i
      {
        AStpPre(PairAt(i), PairAt(i) + 1);
      }
    }

    method EmitSetup()
      requires Valid() && 11 <= Room()
      modifies this, buf
      ensures Valid() && code == old(code) + SetupCode() && at == old(at) + 11
    {
      hide Valid, Imm64, Imm32;
      AOrr(PAD, 31, 0);
      ALdrQOff(0, 2);
      AMovi0(2);
      AImm64(MULTIPLIER, MULT);
      AImm32(MASK, SCRATCH_MASK);
      AImm32(LINE, LINE_MASK);
    }

    method EmitInitOne(i: Reg)
      requires Valid() && (if i == 0 then 3 else 4) <= Room()
      modifies this, buf
      ensures Valid() && code == old(code) + InitOne(i) && at == old(at) + if i == 0 then 3 else 4
    {
      hide Valid, Imm32;
      AImm32(T0, ODD[i]);
      AMul(Pin(i), 1, T0);
      if i != 0 {
        AAddi(Pin(i), Pin(i), INDEX[i]);
      }
    }

    method EmitInit()
      requires Valid() && 31 <= Room()
      modifies this, buf
      ensures Valid() && code == old(code) + InitCode(8) && at == old(at) + 31
    {
      hide Valid, InitOne;
      for i := 0 to 8
        invariant Valid() && code == old(code) + InitCode(i)
        invariant at == old(at) + (if i == 0 then 0 else 4 * i - 1)
      {
        EmitInitOne(i);
        assert code == old(code) + (InitCode(i) + InitOne(i));
      }
    }

    /** The prologue, 192 bytes, ending at the top of the loop. */
    method EmitPrologue()
      requires Valid() && 48 <= Room()
      modifies this, buf
      ensures Valid() && code == old(code) + Prologue() && at == old(at) + 48
    {
      hide Valid, SaveCode, SetupCode, InitCode;
      EmitSave();
      EmitSetup();
      EmitInit();
      AMovz(COUNTER, 0);
    }

    /** The slots in order. */
    method EmitBody(prog: seq<Instr>)
      requires Valid() && BodyLen(prog) / 4 <= Room()
      modifies this, buf
      ensures Valid() && code == old(code) + Body(prog) && at == old(at) + BodyLen(prog) / 4
    {
      hide Valid, SlotCode, A64Len;
      for i := 0 to |prog|
        invariant Valid() && code == old(code) + Body(prog[..i]) && at == old(at) + BodyLen(prog[..i]) / 4
      {
        BodyLenGrows(prog, i);
        EmitOne(prog[i]);
      }
      assert prog[..|prog|] == prog;
    }

    /** The end of the loop: counter, comparison, and the branch back to loopTop. */
    method EmitLoopEnd(loopTop: nat)
      requires Valid() && 4 <= Room() && loopTop <= at
      modifies this, buf
      ensures Valid() && code == old(code) + LoopEnd() + [BLt(loopTop - (old(at) + 3))] && at == old(at) + 4
    {
      hide Valid, BranchWord, RegBits;
      AEor(Pin(0), Pin(0), COUNTER);
      AAddi(COUNTER, COUNTER, 1);
      ACmpi(COUNTER, 1024);
      var off := loopTop - at;
      Ei(BranchWord(off), BLt(off));
    }

    method EmitReturn()
      requires Valid() && 14 <= Room()
      modifies this, buf
      ensures Valid() && code == old(code) + Tail() + [Ret] && at == old(at) + 14
    {
      hide Valid, RestoreCode, FoldCode;
      EmitFold();
      EmitRestore();
      Ei(0xD65F_03C0, Ret);
    }

    method EmitFold()
      requires Valid() && 8 <= Room()
      modifies this, buf
      ensures Valid() && code == old(code) + FoldCode(8) && at == old(at) + 8
    {
      hide Valid;
      AOrr(0, 31, Pin(0));
      for i := 1 to 8
        invariant Valid() && code == old(code) + FoldCode(i) && at == old(at) + i
      {
        AEor(0, 0, Pin(i));
        assert code == old(code) + (FoldCode(i) + [Alu(EorR, 0, 0, Pin(i))]);
      }
    }

    method EmitRestore()
      requires Valid() && 5 <= Room()
      modifies this, buf
      ensures Valid() && code == old(code) + RestoreCode(5) && at == old(at) + 5
    {
      hide Valid, RestoreCode;
      RestoreListed();
      ALdpPost(27, 28);
      ALdpPost(25, 26);
      ALdpPost(23, 24);
      ALdpPost(21, 22);
      ALdpPost(19, 20);
    }
  }

  lemma RestoreListed()
    ensures RestoreCode(5) == [LdpPost(27, 28), LdpPost(25, 26), LdpPost(23, 24), LdpPost(21, 22), LdpPost(19, 20)]
  {
    assert RestoreCode(2) == [LdpPost(21, 22), LdpPost(19, 20)];
    assert RestoreCode(4) == [LdpPost(25, 26), LdpPost(23, 24)] + RestoreCode(2);
  }

  lemma {:induction false} BodyLenGrows(prog: seq<Instr>, i: nat)
    requires i < |prog|
    ensures Body(prog[..i + 1]) == Body(prog[..i]) + SlotCode(prog[i])
    ensures BodyLen(prog[..i + 1]) / 4 == BodyLen(prog[..i]) / 4 + A64Len(prog[i].op) / 4 <= BodyLen(prog) / 4
    decreases |prog| - i
  {
    hide SlotCode, A64Len, Plain;
    assert prog[..i + 1][..i] == prog[..i];
    PlainBody(prog[..i]);
    PlainSlot(prog[i]);
    if i + 1 < |prog| {
      BodyLenGrows(prog, i + 1);
    } else {
      assert prog[..i + 1] == prog;
    }
  }

  lemma Assembled(prog: seq<Instr>, branch: AInstr)
    requires branch == BranchBack(prog)
    ensures [] + Prologue() + Body(prog) + LoopEnd() + [branch] + Tail() + [Ret] == Code(prog)
  {
    hide Prologue, Body, LoopEnd, Tail;
  }

  /** Writes the words of any program at the start of a window and leaves the rest of the
      buffer alone. */
  method Emit(prog: seq<Instr>, out: array<bv8>, base: nat, limit: nat) returns (n: nat)
    requires base + limit <= out.Length && 192 + BodyLen(prog) + 72 <= limit
    modifies out
    ensures n == 192 + BodyLen(prog) + 72
    ensures out[base..base + n] == Bytes(prog)
    ensures out[..base] == old(out[..base]) && out[base + limit..] == old(out[base + limit..])
  {
    hide EncodeAll, Prologue, Body, LoopEnd, Tail, BodyLen, Code, Plain, Emitter.Valid;
    PlainBody(prog);
    PlainPrologue();
    PlainLoop(prog);
    PlainTail();
    var e := new Emitter(out, base, limit);
    e.EmitPrologue();
    var loopTop := e.at;
    e.EmitBody(prog);
    e.EmitLoopEnd(loopTop);
    e.EmitReturn();
    Assembled(prog, BLt(0 - |Body(prog)| - 3));
    e.Written();
    n := 4 * e.at;
  }
}
