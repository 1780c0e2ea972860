/** Bit-level facts about 64-bit words. */
module Words {
  function Low32(x: bv64): bv32 { (x & 0xFFFF_FFFF) as bv32 }

  // ----- rotations -----

  function Funnel(x: bv64, l: bv64, r: bv64): bv64
    requires l <= 64 && r <= 64
  {
    (x << l) | (x >> r)
  }

  function Rol(x: bv64, k: bv64): bv64 { Funnel(x, k & 63, 64 - (k & 63)) }

  function Ror(x: bv64, k: bv64): bv64 { Funnel(x, 64 - (k & 63), k & 63) }

  lemma RotationAmounts(k: bv64)
    ensures var a, b := k & 63, (64 - k) & 63;
            (0 - k) & 63 == b && if a == 0 then b == 0 else 64 - a == b && 64 - b == a
  {
  }

  lemma WholeTurn(x: bv64)
    ensures Funnel(x, 0, 64) == Funnel(x, 64, 0)
  {
  }

  /** A left rotation is the right rotation by the complement, or by the negated amount. */
  lemma RolIsRor(x: bv64, k: bv64)
    ensures Rol(x, k) == Ror(x, 64 - k)
    ensures Rol(x, k) == Ror(x, 0 - k)
  {
    hide Funnel;
    RotationAmounts(k);
    if k & 63 == 0 {
      WholeTurn(x);
    }
  }

  // ----- immediates in 16-bit pieces -----

  function Piece(v: bv64, shift: bv64): bv16
    requires shift <= 48
  {
    ((v >> shift) & 0xFFFF) as bv16
  }

  /** `movk`: replaces one 16-bit lane. */
  function Insert(x: bv64, v: bv16, shift: bv64): bv64
    requires shift <= 48
  {
    (x & !(0xFFFF << shift)) | ((v as bv64) << shift)
  }

  lemma Assemble(v: bv64)
    ensures Insert(Insert(Insert(Piece(v, 0) as bv64, Piece(v, 16), 16), Piece(v, 32), 32), Piece(v, 48), 48) == v
  {
  }

  lemma Assemble32(v: bv64)
    requires v <= 0xFFFF_FFFF
    ensures Insert(Piece(v, 0) as bv64, Piece(v, 16), 16) == v
  {
  }

  // ----- little-endian bytes -----

  function Byte0(v: bv64): bv8 { (v & 0xFF) as bv8 }

  function ToBytes(v: bv64): (b: seq<bv8>)
    ensures |b| == 8
  {
    [Byte0(v), Byte0(v >> 8), Byte0(v >> 16), Byte0(v >> 24),
     Byte0(v >> 32), Byte0(v >> 40), Byte0(v >> 48), Byte0(v >> 56)]
  }

  function Merge(b0: bv8, b1: bv8, b2: bv8, b3: bv8, b4: bv8, b5: bv8, b6: bv8, b7: bv8): bv64 {
    b0 as bv64 | (b1 as bv64 << 8) | (b2 as bv64 << 16) | (b3 as bv64 << 24)
    | (b4 as bv64 << 32) | (b5 as bv64 << 40) | (b6 as bv64 << 48) | (b7 as bv64 << 56)
  }

  function FromBytes(b: seq<bv8>): bv64
    requires |b| == 8
  {
    Merge(b[0], b[1], b[2], b[3], b[4], b[5], b[6], b[7])
  }

  lemma FromToBytes(v: bv64)
    ensures FromBytes(ToBytes(v)) == v
  {
  }

  lemma MergedBytes(b0: bv8, b1: bv8, b2: bv8, b3: bv8, b4: bv8, b5: bv8, b6: bv8, b7: bv8)
    ensures ToBytes(Merge(b0, b1, b2, b3, b4, b5, b6, b7)) == [b0, b1, b2, b3, b4, b5, b6, b7]
  {
    var v := Merge(b0, b1, b2, b3, b4, b5, b6, b7);
    assert Byte0(v) == b0 && Byte0(v >> 8) == b1 && Byte0(v >> 16) == b2 && Byte0(v >> 24) == b3;
    assert Byte0(v >> 32) == b4 && Byte0(v >> 40) == b5 && Byte0(v >> 48) == b6 && Byte0(v >> 56) == b7;
  }

  lemma ToFromBytes(b: seq<bv8>)
    requires |b| == 8
    ensures ToBytes(FromBytes(b)) == b
  {
    MergedBytes(b[0], b[1], b[2], b[3], b[4], b[5], b[6], b[7]);
  }

  // ----- masked offsets -----

  lemma ShiftedSmall(w: bv64)
    requires w < 0x2000
    ensures (w << 3) as int == 8 * (w as int) && w as int < 0x2000
  {
    Double(w);
    Double(w << 1);
    Double(w << 2);
    assert (w << 1) << 1 == w << 2 && (w << 2) << 1 == w << 3;
    SmallValue(w);
  }

  lemma SmallValue(w: bv64)
    requires w < 0x2000
    ensures w as int < 0x2000
  {
  }

  lemma Double(b: bv64)
    requires b < 0x1_0000
    ensures (b << 1) as int == 2 * (b as int)
  {
  }

  lemma MaskedBits(x: bv64)
    ensures x & 0xFFF8 == ((x & 0xFFF8) >> 3) << 3 && (x & 0xFFF8) >> 3 < 0x2000
    ensures x & 0xFFF0 == ((x & 0xFFF0) >> 3) << 3 && (x & 0xFFF0) >> 3 < 0x2000
    ensures (x & 0xFFF0) >> 3 == ((x & 0xFFF0) >> 4) << 1 && (x & 0xFFF0) >> 4 < 0x1000
  {
  }

  lemma OffsetOfIndex(o: bv64, w: bv64)
    requires o == w << 3 && w < 0x2000
    ensures o as int == 8 * (w as int) && o as int < 65_536
  {
    ShiftedSmall(w);
  }

  /** The word mask gives an 8-byte aligned offset below 64 KiB. */
  lemma WordMask(x: bv64)
    ensures (x & 0xFFF8) as int % 8 == 0 && (x & 0xFFF8) as int < 65_536
  {
    MaskedBits(x);
    OffsetOfIndex(x & 0xFFF8, (x & 0xFFF8) >> 3);
  }

  /** The line mask gives a 16-byte aligned offset below 64 KiB. */
  lemma LineMask(x: bv64)
    ensures (x & 0xFFF0) as int % 16 == 0 && (x & 0xFFF0) as int < 65_536
  {
    MaskedBits(x);
    OffsetOfIndex(x & 0xFFF0, (x & 0xFFF0) >> 3);
    Double((x & 0xFFF0) >> 4);
  }

  // ----- the loop counter -----

  function Counter(n: nat): bv64 { if n == 0 then 0 else Counter(n - 1) + 1 }

  lemma Increment(x: bv64)
    requires x < 4096
    ensures (x + 1) as int == x as int + 1
  {
  }

  lemma Bounded(x: bv64)
    ensures x < 4096 <==> (x as int) < 4096
  {
  }

  lemma {:induction false} CounterValue(n: nat)
    requires n < 4096
    ensures Counter(n) as int == n
  {
    if n > 0 {
      CounterValue(n - 1);
      Bounded(Counter(n - 1));
      Increment(Counter(n - 1));
    }
  }

  /** Two's-complement order. */
  function SignedLess(a: bv64, b: bv64): bool {
    a ^ 0x8000_0000_0000_0000 < b ^ 0x8000_0000_0000_0000
  }

  lemma SmallSigned(x: bv64, k: bv64)
    requires k <= 4096
    ensures x <= 4096 ==> (SignedLess(x, k) <==> x < k)
  {
  }

  lemma CompareCounter(n: nat)
    requires n <= 1024
    ensures SignedLess(Counter(n), 1024) <==> n < 1024
  {
    CounterValue(n);
    Bounded(Counter(n));
    SmallSigned(Counter(n), 1024);
    Bounded1024(Counter(n));
  }

  lemma Bounded1024(x: bv64)
    ensures x < 1024 <==> (x as int) < 1024
  {
  }
}
