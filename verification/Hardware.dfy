/** The 64-bit arithmetic shared by the hash, its interpreter and both instruction sets.
    The machines are written over an arbitrary `Hw`; `Lawful` lists the facts about
    two's-complement words that the compilers rely on, and `Real` is the bit-vector
    arithmetic that has them. */
module Hardware {
  import opened Words

  datatype Word = Word(bits: bv64)

  /** A 16-byte vector as its two little-endian lanes. */
  datatype Block = Block(lo: Word, hi: Word)

  datatype Hw = Hw(
    zx: bv32 -> Word,
    sx: bv32 -> Word,
    imm64: bv64 -> Word,
    movz: bv16 -> Word,
    movk: (Word, bv16, nat) -> Word,
    add: (Word, Word) -> Word,
    sub: (Word, Word) -> Word,
    and: (Word, Word) -> Word,
    or: (Word, Word) -> Word,
    xor: (Word, Word) -> Word,
    not: Word -> Word,
    mul: (Word, Word) -> Word,
    mulHi: (Word, Word) -> Word,
    rol: (Word, Word) -> Word,
    ror: (Word, Word) -> Word,
    shr: (Word, bv8) -> Word,
    and32: (Word, bv32) -> Word,
    less: (Word, Word) -> bool,
    value: Word -> nat,
    subBytes: Block -> Block,
    shiftRows: Block -> Block,
    mixColumns: Block -> Block,
    xorBlock: (Block, Block) -> Block)
  {
    function Zero(): Word { zx(0) }

    function Zx8(k: bv8): Word { zx(k as bv32) }

    /** An 8-bit immediate as the processor widens it. */
    static function SignExtended(k: bv8): bv32 { if k < 0x80 then k as bv32 else k as bv32 | 0xFFFF_FF00 }

    function ZeroBlock(): Block { Block(Zero(), Zero()) }

    /** Low 16 bits and next 16 bits of an immediate, as `movz` and `movk` take them. */
    static function Lo(v: bv32): bv16 { (v & 0xFFFF) as bv16 }

    static function Hi(v: bv32): bv16 { ((v >> 16) & 0xFFFF) as bv16 }

    /** The n-th value of a counter that starts at zero and is incremented. */
    function Count(n: nat): Word { if n == 0 then Zero() else add(Count(n - 1), zx(1)) }

    ghost predicate RotationLaws() {
      && (forall x, k: bv8 :: 0 < k < 64 ==> rol(x, Zx8(k)) == ror(x, Zx8(64 - k)))
      && (forall x, y :: rol(x, y) == ror(x, sub(Zero(), y)))
    }

    ghost predicate ImmediateLaws() {
      && (forall v: bv32 :: movk(movz(Lo(v)), Hi(v), 1) == zx(v))
      && (forall v: bv64 ::
            movk(movk(movk(movz(Piece(v, 0)), Piece(v, 16), 1), Piece(v, 32), 2), Piece(v, 48), 3) == imm64(v))
      && (forall v: bv32 :: v < 0x8000_0000 ==> sx(v) == zx(v))
      && movz(0) == Zero()
    }

    ghost predicate BitwiseLaws() {
      && (forall x, m: bv32 :: and32(x, m) == and(x, zx(m)))
      && (forall x, y :: and(x, y) == and(y, x))
      && (forall x, y :: or(x, y) == or(y, x))
      && (forall x :: or(Zero(), x) == x)
      && (forall x :: xor(Zero(), x) == x)
      && (forall x :: add(x, Zero()) == x)
    }

    ghost predicate MaskLaws() {
      && (forall x :: value(and(x, zx(0xFFF8))) % 8 == 0 && value(and(x, zx(0xFFF8))) < 65_536)
      && (forall x :: value(and(x, zx(0xFFF0))) % 16 == 0 && value(and(x, zx(0xFFF0))) < 65_536)
    }

    ghost predicate CounterLaws() {
      forall n: nat :: n <= 1024 ==> (less(Count(n), zx(1024)) <==> n < 1024)
    }

    ghost predicate AesLaws() {
      && (forall b :: subBytes(shiftRows(b)) == shiftRows(subBytes(b)))
      && (forall b :: xorBlock(b, ZeroBlock()) == b)
    }

    ghost predicate Lawful() {
      RotationLaws() && ImmediateLaws() && BitwiseLaws() && MaskLaws() && CounterLaws() && AesLaws()
    }
  }
}
