/** Little-endian bytes of words and displacements, and back. */
module Octets {
  function Le32(v: bv32): (b: seq<bv8>)
    ensures |b| == 4
  {
    [(v & 0xFF) as bv8, ((v >> 8) & 0xFF) as bv8, ((v >> 16) & 0xFF) as bv8, ((v >> 24) & 0xFF) as bv8]
  }

  function Join32(b0: bv8, b1: bv8, b2: bv8, b3: bv8): bv32 {
    b0 as bv32 | (b1 as bv32 << 8) | (b2 as bv32 << 16) | (b3 as bv32 << 24)
  }

  function Of32(b: seq<bv8>): bv32
    requires |b| >= 4
  {
    Join32(b[0], b[1], b[2], b[3])
  }

  lemma RoundTrip32(v: bv32, rest: seq<bv8>)
    ensures Of32(Le32(v) + rest) == v
  {
    var b := Le32(v);
    assert (b + rest)[0] == b[0] && (b + rest)[1] == b[1] && (b + rest)[2] == b[2] && (b + rest)[3] == b[3];
    Joined32(v);
  }

  lemma Joined32(v: bv32)
    ensures Join32((v & 0xFF) as bv8, ((v >> 8) & 0xFF) as bv8, ((v >> 16) & 0xFF) as bv8,
                   ((v >> 24) & 0xFF) as bv8) == v
  {
  }

  /** A small number as a byte. */
  function Octet(n: nat): bv8
    requires n < 256
  {
    if n == 0 then 0 else Octet(n - 1) + 1
  }

  lemma NextOctet(x: bv8)
    requires x as int < 255
    ensures (x + 1) as int == x as int + 1
  {
  }

  lemma {:induction false} OctetValue(n: nat)
    requires n < 256
    ensures Octet(n) as int == n
  {
    if n > 0 {
      OctetValue(n - 1);
      NextOctet(Octet(n - 1));
    }
  }

  function Digit(u: nat, unit: nat): (d: nat)
    requires unit > 0
    ensures d < 256
  {
    u / unit % 256
  }

  /** A displacement as `i32 as u32`, little-endian. */
  function LeInt(rel: int): (b: seq<bv8>)
    ensures |b| == 4
  {
    var u := rel % 0x1_0000_0000;
    [Octet(Digit(u, 1)), Octet(Digit(u, 0x100)), Octet(Digit(u, 0x1_0000)), Octet(Digit(u, 0x100_0000))]
  }

  function Signed(u: int): int { if u < 0x8000_0000 then u else u - 0x1_0000_0000 }

  function Sum4(d0: int, d1: int, d2: int, d3: int): int { d0 + 0x100 * d1 + 0x1_0000 * d2 + 0x100_0000 * d3 }

  function IntOf(b: seq<bv8>): int
    requires |b| >= 4
  {
    Signed(Sum4(b[0] as int, b[1] as int, b[2] as int, b[3] as int))
  }

  lemma RoundTripInt(rel: int, rest: seq<bv8>)
    requires -0x8000_0000 <= rel < 0x8000_0000
    ensures IntOf(LeInt(rel) + rest) == rel
  {
    hide Octet, Digit, Sum4;
    var u, b := rel % 0x1_0000_0000, LeInt(rel);
    assert (b + rest)[0] == b[0] && (b + rest)[1] == b[1] && (b + rest)[2] == b[2] && (b + rest)[3] == b[3];
    OctetValue(Digit(u, 1));
    OctetValue(Digit(u, 0x100));
    OctetValue(Digit(u, 0x1_0000));
    OctetValue(Digit(u, 0x100_0000));
    Digits(u);
  }

  lemma Digits(u: nat)
    requires u < 0x1_0000_0000
    ensures Sum4(Digit(u, 1), Digit(u, 0x100), Digit(u, 0x1_0000), Digit(u, 0x100_0000)) == u
  {
  }

  function Le64(v: bv64): (b: seq<bv8>)
    ensures |b| == 8
  {
    Le32((v & 0xFFFF_FFFF) as bv32) + Le32((v >> 32) as bv32)
  }

  function Of64(b: seq<bv8>): bv64
    requires |b| >= 8
  {
    Of32(b) as bv64 | (Of32(b[4..]) as bv64 << 32)
  }

  lemma RoundTrip64(v: bv64, rest: seq<bv8>)
    ensures Of64(Le64(v) + rest) == v
  {
    var lo, hi := (v & 0xFFFF_FFFF) as bv32, (v >> 32) as bv32;
    assert Le64(v) + rest == Le32(lo) + (Le32(hi) + rest);
    assert (Le64(v) + rest)[4..] == Le32(hi) + rest;
    RoundTrip32(lo, Le32(hi) + rest);
    RoundTrip32(hi, rest);
    Halves(v);
  }

  lemma Halves(v: bv64)
    ensures (((v & 0xFFFF_FFFF) as bv32) as bv64) | (((v >> 32) as bv32) as bv64 << 32) == v
  {
  }

  lemma Associate<T>(a: seq<T>, b: seq<T>, c: seq<T>)
    ensures a + (b + c) == (a + b) + c
  {
  }
}
