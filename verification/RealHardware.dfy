/** The bit-vector arithmetic of the two processors, for any AES S-box and MixColumns. */
module RealHardware {
  import opened Words
  import opened Hardware

  const TWO64: nat := 0x1_0000_0000_0000_0000

  lemma MulMono(a: nat, b: nat, c: nat)
    requires b <= c
    ensures a * b <= a * c
  {
  }

  lemma ProductHigh(a: nat, b: nat, n: nat)
    requires a < n && b < n
    ensures 0 <= a * b / n < n
  {
    MulMono(a, b, n);
    MulMono(n, a, n - 1);
    assert n * (n - 1) == n * n - n;
    QuotientBound(a * b, n);
  }

  lemma QuotientBound(p: nat, n: nat)
    requires 0 < n && p < n * n
    ensures 0 <= p / n < n
  {
    MulMono(n, n, if p / n >= n then p / n else n);
  }

  /** The high 64 bits of the 128-bit product. */
  function MulHi(a: bv64, b: bv64): bv64 {
    ProductHigh(a as int, b as int, TWO64);
    ((a as int) * (b as int) / TWO64) as bv64
  }

  function BytesOf(b: Block): (s: seq<bv8>)
    ensures |s| == 16
  {
    ToBytes(b.lo.bits) + ToBytes(b.hi.bits)
  }

  function BlockOf(s: seq<bv8>): Block
    requires |s| == 16
  {
    Block(Word(FromBytes(s[..8])), Word(FromBytes(s[8..])))
  }

  lemma BytesOfBlock(s: seq<bv8>)
    requires |s| == 16
    ensures BytesOf(BlockOf(s)) == s
  {
    ToFromBytes(s[..8]);
    ToFromBytes(s[8..]);
  }

  function SubstituteBytes(sbox: bv8 -> bv8, s: seq<bv8>): seq<bv8>
    requires |s| == 16
  {
    seq(16, i requires 0 <= i < 16 => sbox(s[i]))
  }

  /** Row r of the column-major state moves left by r columns. */
  function RotateRows(s: seq<bv8>): seq<bv8>
    requires |s| == 16
  {
    seq(16, i requires 0 <= i < 16 => s[(i + 4 * (i % 4)) % 16])
  }

  function SubBytes(sbox: bv8 -> bv8, b: Block): Block { BlockOf(SubstituteBytes(sbox, BytesOf(b))) }

  function ShiftRows(b: Block): Block { BlockOf(RotateRows(BytesOf(b))) }

  /** The S-box acts bytewise, so it commutes with the row rotation: the orders given by
      FIPS 197, by AESENC and by AESE agree. */
  lemma SubShiftCommute(sbox: bv8 -> bv8, b: Block)
    ensures SubBytes(sbox, ShiftRows(b)) == ShiftRows(SubBytes(sbox, b))
  {
    var s := BytesOf(b);
    BytesOfBlock(RotateRows(s));
    BytesOfBlock(SubstituteBytes(sbox, s));
    assert SubstituteBytes(sbox, RotateRows(s)) == RotateRows(SubstituteBytes(sbox, s));
  }

  function MovK(x: bv64, v: bv16, lane: nat): bv64 {
    if lane == 1 then Insert(x, v, 16)
    else if lane == 2 then Insert(x, v, 32)
    else if lane == 3 then Insert(x, v, 48)
    else Insert(x, v, 0)
  }

  function SignExtend(v: bv32): bv64 {
    if v < 0x8000_0000 then v as bv64 else (v as bv64) | 0xFFFF_FFFF_0000_0000
  }

  function ZxW(v: bv32): Word { Word(v as bv64) }

  function SxW(v: bv32): Word { Word(SignExtend(v)) }

  function Imm64W(v: bv64): Word { Word(v) }

  function MovzW(v: bv16): Word { Word(v as bv64) }

  function MovkW(x: Word, v: bv16, lane: nat): Word { Word(MovK(x.bits, v, lane)) }

  function AddW(x: Word, y: Word): Word { Word(x.bits + y.bits) }

  function SubW(x: Word, y: Word): Word { Word(x.bits - y.bits) }

  function AndW(x: Word, y: Word): Word { Word(x.bits & y.bits) }

  function OrW(x: Word, y: Word): Word { Word(x.bits | y.bits) }

  function XorW(x: Word, y: Word): Word { Word(x.bits ^ y.bits) }

  function NotW(x: Word): Word { Word(!x.bits) }

  function MulW(x: Word, y: Word): Word { Word(x.bits * y.bits) }

  function MulHiW(x: Word, y: Word): Word { Word(MulHi(x.bits, y.bits)) }

  function RolW(x: Word, y: Word): Word { Word(Rol(x.bits, y.bits)) }

  function RorW(x: Word, y: Word): Word { Word(Ror(x.bits, y.bits)) }

  /** Logical shift right by a count below 64. */
  function ShrW(x: Word, k: bv8): Word { Word(x.bits >> (k & 63)) }

  function And32W(x: Word, m: bv32): Word { Word((Low32(x.bits) & m) as bv64) }

  function XorBlocks(a: Block, b: Block): Block { Block(XorW(a.lo, b.lo), XorW(a.hi, b.hi)) }

  function Unsigned(x: Word): nat { x.bits as int }

  function Real(sbox: bv8 -> bv8, mix: Block -> Block): Hw {
    Hw(ZxW, SxW, Imm64W, MovzW, MovkW, AddW, SubW, AndW, OrW, XorW, NotW, MulW, MulHiW, RolW, RorW, ShrW, And32W,
       (x: Word, y: Word) => SignedLess(x.bits, y.bits), Unsigned,
       b => SubBytes(sbox, b), ShiftRows, mix, XorBlocks)
  }

  lemma RealRotations(hw: Hw, sbox: bv8 -> bv8, mix: Block -> Block)
    requires hw == Real(sbox, mix)
    ensures hw.RotationLaws()
  {
    forall x: Word, k: bv8 | 0 < k < 64 ensures hw.rol(x, hw.Zx8(k)) == hw.ror(x, hw.Zx8(64 - k)) {
      RolIsRor(x.bits, (k as bv32) as bv64);
      assert ((64 - k) as bv32) as bv64 == 64 - ((k as bv32) as bv64);
    }
    forall x: Word, y: Word ensures hw.rol(x, y) == hw.ror(x, hw.sub(hw.Zero(), y)) {
      RolIsRor(x.bits, y.bits);
    }
  }

  lemma ImmediatePieces(v: bv32)
    ensures MovkW(MovzW(Hw.Lo(v)), Hw.Hi(v), 1) == ZxW(v)
  {
    Assemble32(v as bv64);
    assert Piece(v as bv64, 0) == Hw.Lo(v) && Piece(v as bv64, 16) == Hw.Hi(v);
  }

  lemma WidePieces(v: bv64)
    ensures MovkW(MovkW(MovkW(MovzW(Piece(v, 0)), Piece(v, 16), 1), Piece(v, 32), 2), Piece(v, 48), 3) == Imm64W(v)
  {
    Assemble(v);
  }

  lemma RealImmediates(hw: Hw, sbox: bv8 -> bv8, mix: Block -> Block)
    requires hw == Real(sbox, mix)
    ensures hw.ImmediateLaws()
  {
    hide MovkW, Piece, Hw.Lo, Hw.Hi, Imm64W;
    forall v: bv32 ensures hw.movk(hw.movz(Hw.Lo(v)), Hw.Hi(v), 1) == hw.zx(v) {
      ImmediatePieces(v);
    }
    forall v: bv64
      ensures hw.movk(hw.movk(hw.movk(hw.movz(Piece(v, 0)), Piece(v, 16), 1), Piece(v, 32), 2), Piece(v, 48), 3)
           == hw.imm64(v)
    {
      WidePieces(v);
    }
  }

  lemma And32IsAnd(x: Word, m: bv32)
    ensures And32W(x, m) == AndW(x, ZxW(m))
  {
    BitwiseBits(x.bits, x.bits, m);
  }

  lemma AndCommutes(x: Word, y: Word)
    ensures AndW(x, y) == AndW(y, x)
  {
  }

  lemma OrCommutes(x: Word, y: Word)
    ensures OrW(x, y) == OrW(y, x)
  {
  }

  lemma ZeroOr(x: Word)
    ensures OrW(ZxW(0), x) == x
  {
  }

  lemma AddZero(x: Word)
    ensures AddW(x, ZxW(0)) == x
  {
  }

  lemma ZeroXor(x: Word)
    ensures XorW(ZxW(0), x) == x
  {
  }

  lemma BitwiseBits(x: bv64, y: bv64, m: bv32)
    ensures (Low32(x) & m) as bv64 == x & (m as bv64)
  {
  }

  lemma RealBitwise(hw: Hw, sbox: bv8 -> bv8, mix: Block -> Block)
    requires hw == Real(sbox, mix)
    ensures hw.BitwiseLaws()
  {
    hide And32W, AndW, OrW, XorW, AddW, ZxW;
    forall x: Word, m: bv32 ensures hw.and32(x, m) == hw.and(x, hw.zx(m)) {
      And32IsAnd(x, m);
    }
    forall x: Word, y: Word ensures hw.and(x, y) == hw.and(y, x) && hw.or(x, y) == hw.or(y, x) {
      AndCommutes(x, y);
      OrCommutes(x, y);
    }
    forall x: Word ensures hw.or(hw.Zero(), x) == x && hw.xor(hw.Zero(), x) == x && hw.add(x, hw.Zero()) == x {
      ZeroOr(x);
      ZeroXor(x);
      AddZero(x);
    }
  }

  lemma MaskedWord(x: Word)
    ensures var o := Unsigned(AndW(x, ZxW(0xFFF8))); o % 8 == 0 && o < 65_536
  {
    WordMask(x.bits);
  }

  lemma MaskedLine(x: Word)
    ensures var o := Unsigned(AndW(x, ZxW(0xFFF0))); o % 16 == 0 && o < 65_536
  {
    LineMask(x.bits);
  }

  lemma RealMasks(hw: Hw, sbox: bv8 -> bv8, mix: Block -> Block)
    requires hw == Real(sbox, mix)
    ensures hw.MaskLaws()
  {
    hide Unsigned, AndW, ZxW;
    forall x: Word
      ensures hw.value(hw.and(x, hw.zx(0xFFF8))) % 8 == 0 && hw.value(hw.and(x, hw.zx(0xFFF8))) < 65_536
      ensures hw.value(hw.and(x, hw.zx(0xFFF0))) % 16 == 0 && hw.value(hw.and(x, hw.zx(0xFFF0))) < 65_536
    {
      MaskedWord(x);
      MaskedLine(x);
    }
  }

  lemma {:induction false} RealCount(hw: Hw, sbox: bv8 -> bv8, mix: Block -> Block, n: nat)
    requires hw == Real(sbox, mix)
    ensures hw.Count(n) == Word(Counter(n))
  {
    if n > 0 {
      RealCount(hw, sbox, mix, n - 1);
    }
  }

  lemma RealCounter(hw: Hw, sbox: bv8 -> bv8, mix: Block -> Block)
    requires hw == Real(sbox, mix)
    ensures hw.CounterLaws()
  {
    forall n: nat | n <= 1024 ensures hw.less(hw.Count(n), hw.zx(1024)) <==> n < 1024 {
      RealCount(hw, sbox, mix, n);
      CompareCounter(n);
    }
  }

  lemma XorZeroBlock(b: Block)
    ensures XorBlocks(b, Block(ZxW(0), ZxW(0))) == b
  {
    assert b.lo.bits ^ 0 == b.lo.bits && b.hi.bits ^ 0 == b.hi.bits;
  }

  lemma RealAes(hw: Hw, sbox: bv8 -> bv8, mix: Block -> Block)
    requires hw == Real(sbox, mix)
    ensures hw.AesLaws()
  {
    hide SubBytes, ShiftRows, XorBlocks, ZxW;
    forall b: Block
      ensures hw.subBytes(hw.shiftRows(b)) == hw.shiftRows(hw.subBytes(b))
      ensures hw.xorBlock(b, hw.ZeroBlock()) == b
    {
      SubShiftCommute(sbox, b);
      XorZeroBlock(b);
    }
  }

  /** The processors' arithmetic has every law the compilers rely on. */
  lemma RealIsLawful(sbox: bv8 -> bv8, mix: Block -> Block)
    ensures Real(sbox, mix).Lawful()
  {
    var hw := Real(sbox, mix);
    RealRotations(hw, sbox, mix);
    RealImmediates(hw, sbox, mix);
    RealBitwise(hw, sbox, mix);
    RealMasks(hw, sbox, mix);
    RealCounter(hw, sbox, mix);
    RealAes(hw, sbox, mix);
  }
}
