/** The branchless hex codec of the wallet, and the backup string with its check digits. */
module SecHex {
  import opened Wrappers
  import opened Text

  type Byte = b: nat | b < 256

  // ----- bit operations on small numbers -----

  function And(a: nat, b: nat): nat {
    if a == 0 || b == 0 then 0 else a % 2 * (b % 2) + 2 * And(a / 2, b / 2)
  }

  function Or(a: nat, b: nat): nat {
    if a == 0 then b else if b == 0 then a
    else (if a % 2 + b % 2 > 0 then 1 else 0) + 2 * Or(a / 2, b / 2)
  }

  /** Arithmetic shift by 15 and the low bit, of a 16-bit signed number. */
  function SignOf16(v: int): nat { v / 32768 % 2 }

  // ----- one digit -----

  function InRange(c: Byte, lo: Byte, hi: Byte): nat { And(SignOf16(lo - c - 1), SignOf16(c - hi - 1)) }

  /** 1 inside the range, 0 outside, without a branch. */
  lemma InRangeIs(c: Byte, lo: Byte, hi: Byte)
    ensures InRange(c, lo, hi) == if lo <= c <= hi then 1 else 0
  {
    assert SignOf16(lo - c - 1) == if lo <= c then 1 else 0;
    assert SignOf16(c - hi - 1) == if c <= hi then 1 else 0;
    assert And(1, 1) == 1 && And(0, 1) == 0 && And(1, 0) == 0;
  }

  /** u8 arithmetic wraps. */
  function NibbleToAscii(n: Byte): Byte {
    var gt9 := (9 - n) % 256 / 128 % 2;
    ((n + 48) % 256 + gt9 * 39 % 256) % 256
  }

  /** Whichever of the three the flags select. */
  function Pick(digit: nat, x: nat, lower: nat, y: nat, upper: nat, z: nat): nat {
    Or(Or(digit * x % 256, lower * y % 256), upper * z % 256)
  }

  function Less(c: Byte, k: Byte): Byte { (c - k) % 256 }

  function LessTen(c: Byte, k: Byte): Byte { ((c - k) % 256 + 10) % 256 }

  lemma LessIs(c: Byte, k: Byte)
    requires k <= c < k + 10
    ensures Less(c, k) == c - k && LessTen(c, k) == c - k + 10
  {
  }

  function AsciiToNibble(c: Byte): (Byte, Byte) {
    var digit, lower, upper := InRange(c, 48, 57), InRange(c, 97, 102), InRange(c, 65, 70);
    (Pick(digit, Less(c, 48), lower, LessTen(c, 97), upper, LessTen(c, 65)) % 16,
     Or(Or(digit, lower), upper) % 256)
  }

  lemma Picks(x: nat, y: nat, z: nat)
    requires x < 256 && y < 256 && z < 256
    ensures Pick(1, x, 0, y, 0, z) == x && Pick(0, x, 1, y, 0, z) == y && Pick(0, x, 0, y, 1, z) == z
  {
    hide Or;
    OrZero(x);
    OrZero(y);
    OrZero(z);
    OrZero(0);
  }

  lemma OrZero(a: nat)
    ensures Or(a, 0) == a && Or(0, a) == a
  {
  }

  /** The sixteen digits 0 to f. */
  function HexDigit(n: nat): char
    requires n < 16
  {
    if n < 10 then '0' + n as char else 'a' + (n - 10) as char
  }

  predicate IsHex(c: char) { '0' <= c <= '9' || 'a' <= c <= 'f' || 'A' <= c <= 'F' }

  function HexVal(c: char): (v: nat)
    requires IsHex(c)
    ensures v < 16
  {
    if c <= '9' then c as nat - 48 else if 'a' <= c then c as nat - 87 else c as nat - 55
  }

  /** The arithmetic is the table, for every nibble. */
  lemma NibbleIsDigit(n: Byte)
    requires n < 16
    ensures NibbleToAscii(n) == HexDigit(n) as int && IsHex(HexDigit(n)) && HexVal(HexDigit(n)) == n
    ensures NibbleToAscii(n) as char == HexDigit(n)
  {
  }

  /** And for every byte: valid exactly on the three ranges, with the digit's value there. */
  lemma ByteIsNibble(c: Byte)
    ensures AsciiToNibble(c).1 == if IsHex(c as char) then 1 else 0
    ensures IsHex(c as char) ==> AsciiToNibble(c).0 == HexVal(c as char)
    ensures AsciiToNibble(c).0 < 16
  {
    hide InRange, Or, Pick, Less, LessTen;
    InRangeIs(c, 48, 57);
    InRangeIs(c, 97, 102);
    InRangeIs(c, 65, 70);
    Picks(Less(c, 48), LessTen(c, 97), LessTen(c, 65));
    OrZero(1);
    OrZero(0);
    if 48 <= c <= 57 {
      LessIs(c, 48);
    } else if 97 <= c <= 102 {
      LessIs(c, 97);
    } else if 65 <= c <= 70 {
      LessIs(c, 65);
    }
  }

  // ----- strings -----

  function HexOf(b: seq<Byte>): string {
    if b == [] then "" else HexOf(b[..|b| - 1]) + [HexDigit(b[|b| - 1] / 16), HexDigit(b[|b| - 1] % 16)]
  }

  predicate AllHex(s: string) { forall i :: 0 <= i < |s| ==> IsHex(s[i]) }

  function Bytes(s: string): seq<Byte>
    requires AllHex(s) && |s| % 2 == 0
  {
    if s == "" then []
    else Bytes(s[..|s| - 2]) + [16 * HexVal(s[|s| - 2]) + HexVal(s[|s| - 1])]
  }

  function FromHex(s: string): Option<seq<Byte>> {
    if |s| % 2 == 0 && AllHex(s) then Some(Bytes(s)) else None
  }

  method Encode(b: seq<Byte>) returns (s: string)
    ensures s == HexOf(b)
  {
    s := "";
    for i := 0 to |b|
      invariant s == HexOf(b[..i])
    {
      NibbleIsDigit(b[i] / 16);
      NibbleIsDigit(b[i] % 16);
      s := s + [NibbleToAscii(b[i] / 16) as char, NibbleToAscii(b[i] % 16) as char];
      assert b[..i + 1][..i] == b[..i];
    }
    assert b[..|b|] == b;
  }

  function Chars(raw: seq<Byte>): (s: string)
    ensures |s| == |raw|
  {
    seq(|raw|, i requires 0 <= i < |raw| => raw[i] as char)
  }

  /** Every pair of bytes is decoded; one flag collects whether all of them were digits. */
  method Decode(raw: seq<Byte>) returns (r: Option<seq<Byte>>)
    ensures r == FromHex(Chars(raw))
  {
    hide AsciiToNibble, And, Or, Bytes, AllHex;
    NoDigits();
    ghost var s := Chars(raw);
    if |raw| % 2 != 0 {
      return None;
    }
    var out: seq<Byte>, valid, i := [], 1, 0;
    while i < |raw|
      invariant 0 <= i <= |raw| && i % 2 == 0
      invariant valid == if AllHex(s[..i]) then 1 else 0
      invariant valid == 1 ==> out == Bytes(s[..i])
    {
      var hi, lo := AsciiToNibble(raw[i]), AsciiToNibble(raw[i + 1]);
      ByteIsNibble(raw[i]);
      ByteIsNibble(raw[i + 1]);
      PairHex(s, i);
      Flags(valid, hi.1, lo.1);
      if AllHex(s[..i + 2]) {
        BytesStep(s[..i + 2]);
        assert s[..i + 2][..i] == s[..i];
      }
      valid := And(valid, And(hi.1, lo.1));
      var h: nat, l: nat := hi.0, lo.0;
      OrNibbles(h, l);
      out := out + [Or(h * 16, l)];
      i := i + 2;
    }
    assert s[..|s|] == s;
    r := if valid == 1 then Some(out) else None;
  }

  /** A high and a low nibble share no bit. */
  lemma OrNibbles(h: nat, l: nat)
    requires h < 16 && l < 16
    ensures Or(h * 16, l) == 16 * h + l < 256
  {
    hide Or;
    OrZero(h);
    OrEven(h, l / 8);
    OrEven(h * 2, l / 4);
    OrEven(h * 4, l / 2);
    OrEven(h * 8, l);
  }

  lemma OrEven(a: nat, b: nat)
    requires Or(a, b / 2) == a + b / 2
    ensures Or(2 * a, b) == 2 * a + b
  {
  }

  lemma NoDigits()
    ensures AllHex("") && Bytes("") == [] && HexOf([]) == ""
  {
  }

  lemma Flags(a: nat, b: nat, c: nat)
    requires a <= 1 && b <= 1 && c <= 1
    ensures And(a, And(b, c)) == if a == 1 && b == 1 && c == 1 then 1 else 0
  {
  }

  lemma BytesStep(s: string)
    requires AllHex(s) && |s| % 2 == 0 && s != ""
    ensures AllHex(s[..|s| - 2]) && IsHex(s[|s| - 2]) && IsHex(s[|s| - 1])
    ensures Bytes(s) == Bytes(s[..|s| - 2]) + [16 * HexVal(s[|s| - 2]) + HexVal(s[|s| - 1])]
  {
  }

  lemma HexStep(b: seq<Byte>, x: Byte)
    ensures HexOf(b + [x]) == HexOf(b) + [HexDigit(x / 16), HexDigit(x % 16)]
  {
    assert (b + [x])[..|b|] == b;
  }

  lemma PairHex(s: string, i: nat)
    requires i + 2 <= |s|
    ensures AllHex(s[..i + 2]) <==> AllHex(s[..i]) && IsHex(s[i]) && IsHex(s[i + 1])
  {
    if AllHex(s[..i + 2]) {
      assert s[..i + 2][i] == s[i] && s[..i + 2][i + 1] == s[i + 1];
    }
  }

  lemma {:induction false} HexOfShape(b: seq<Byte>)
    ensures |HexOf(b)| == 2 * |b| && AllHex(HexOf(b)) && IsAscii(HexOf(b))
  {
    if b != [] {
      HexOfShape(b[..|b| - 1]);
      NibbleIsDigit(b[|b| - 1] / 16);
      NibbleIsDigit(b[|b| - 1] % 16);
    }
  }

  /** Decoding inverts encoding on all byte strings. */
  lemma {:induction false} DecodeEncode(b: seq<Byte>)
    ensures FromHex(HexOf(b)) == Some(b)
  {
    hide HexOf, Bytes, HexVal, IsHex;
    HexOfShape(b);
    NoDigits();
    if b != [] {
      var front, last, s := b[..|b| - 1], b[|b| - 1], HexOf(b);
      DecodeEncode(front);
      HexOfShape(front);
      NibbleIsDigit(last / 16);
      NibbleIsDigit(last % 16);
      assert b == front + [last];
      HexStep(front, last);
      BytesStep(s);
      assert s[..|s| - 2] == HexOf(front);
    }
  }

  lemma DigitOfVal(c: char)
    requires IsHex(c)
    ensures HexDigit(HexVal(c)) == LowerChar(c)
  {
  }

  /** Encoding what was decoded is lower-casing. */
  lemma {:induction false} EncodeDecode(s: string)
    requires FromHex(s).Some?
    ensures HexOf(FromHex(s).value) == Lower(s)
    decreases |s|
  {
    hide HexOf, Bytes, HexVal, IsHex, LowerChar;
    NoDigits();
    if s != "" {
      var front, c, d := s[..|s| - 2], s[|s| - 2], s[|s| - 1];
      BytesStep(s);
      EncodeDecode(front);
      DigitOfVal(c);
      DigitOfVal(d);
      HexStep(Bytes(front), 16 * HexVal(c) + HexVal(d));
      assert Lower(s) == Lower(front) + [LowerChar(c), LowerChar(d)];
    }
  }

  // ----- the backup string -----

  datatype SeedSource = Checked | Unchecked

  function DecodeSeed(s: string): Option<seq<Byte>> {
    match FromHex(s)
    case None => None
    case Some(b) => if |b| == 32 then Some(b) else None
  }

  function EncodeBackup(seed: seq<Byte>, check: seq<Byte> -> (Byte, Byte)): string {
    HexOf(seed) + HexOf([check(seed).0, check(seed).1])
  }

  /** 68 characters are a seed and its check digits; anything else must be a bare seed. */
  function DecodeBackup(s: string, check: seq<Byte> -> (Byte, Byte)): Option<(seq<Byte>, SeedSource)> {
    if |s| == 68 && IsAscii(s) then
      match (DecodeSeed(s[..64]), FromHex(s[64..]))
      case (Some(seed), Some(given)) =>
        if given == [check(seed).0, check(seed).1] then Some((seed, Checked)) else None
      case _ => None
    else
      match DecodeSeed(s)
      case None => None
      case Some(seed) => Some((seed, Unchecked))
  }

  /** A printed backup restores its seed as checked, a bare seed as unchecked. */
  lemma BackupRestores(seed: seq<Byte>, check: seq<Byte> -> (Byte, Byte))
    requires |seed| == 32
    ensures DecodeBackup(EncodeBackup(seed, check), check) == Some((seed, Checked))
    ensures DecodeBackup(HexOf(seed), check) == Some((seed, Unchecked))
  {
    var tail: seq<Byte> := [check(seed).0, check(seed).1];
    HexOfShape(seed);
    HexOfShape(tail);
    DecodeEncode(seed);
    DecodeEncode(tail);
    var s := EncodeBackup(seed, check);
    assert s[..64] == HexOf(seed) && s[64..] == HexOf(tail);
    hide HexOf, Bytes;
  }

  /** A string accepted with its check digits is the printed backup of the seed it restores,
      up to letter case. */
  lemma CheckedIsPrinted(s: string, check: seq<Byte> -> (Byte, Byte))
    requires DecodeBackup(s, check).Some? && DecodeBackup(s, check).value.1 == Checked
    ensures Lower(s) == EncodeBackup(DecodeBackup(s, check).value.0, check)
  {
    hide HexOf, Bytes;
    EncodeDecode(s[..64]);
    EncodeDecode(s[64..]);
    assert Lower(s) == Lower(s[..64]) + Lower(s[64..]);
  }
}
