/** The wallet's key file: sealing and opening a seed, and the strict text it is kept in. */
module KeyFile {
  import opened Wrappers
  import opened Text
  import opened SecHex

  const MAX_U64: nat := 0xFFFF_FFFF_FFFF_FFFF
  const MAX_ITERS: nat := 1_000_000_000
  const ARGON2_MAX_PASSES: nat := 64
  const MAGIC: string := "PLNEKEY1"
  const KDF_NONE: string := "none"
  const KDF_BLAKE3: string := "blake3-iter-v1"
  const KDF_ARGON2ID: string := "argon2id-v1"
  const CIPHER_NONE: string := "none"
  const CIPHER_BLAKE3: string := "blake3-ctr-v1"

  datatype KeyError =
    | NonAscii | Empty | BadMagic | BadLineCount | BadField(line: nat) | BadWork | NotCanonical
    | NeedsPassphrase | NotEncrypted | UnknownKdf | UnknownCipher | NoArgon | MacMismatch | WrongPubkey

  datatype Role = Spend | Author | Checkpoint

  function RoleName(r: Role): string {
    match r case Spend => "spend" case Author => "author" case Checkpoint => "checkpoint"
  }

  function RoleOf(s: string): Option<Role> {
    if s == "spend" then Some(Spend)
    else if s == "author" then Some(Author)
    else if s == "checkpoint" then Some(Checkpoint)
    else None
  }

  datatype KeyFile = KeyFile(
    version: nat, role: Role, created: nat, kdf: string, iters: nat, salt: seq<Byte>, cipher: string,
    nonce: seq<Byte>, pubkey: seq<Byte>, address: string, ciphertext: seq<Byte>, mac: seq<Byte>)

  // ----- the text -----

  function FieldName(i: nat): string
    requires i < 12
  {
    match i
    case 0 => "version" case 1 => "role" case 2 => "created" case 3 => "kdf" case 4 => "kdf_iters" case 5 => "kdf_salt"
    case 6 => "cipher" case 7 => "nonce" case 8 => "pubkey" case 9 => "address" case 10 => "ciphertext" case _ => "mac"
  }

  function FieldText(kf: KeyFile, i: nat): string
    requires i < 12
  {
    match i
    case 0 => Decimal(kf.version)
    case 1 => RoleName(kf.role)
    case 2 => Decimal(kf.created)
    case 3 => kf.kdf
    case 4 => Decimal(kf.iters)
    case 5 => HexOf(kf.salt)
    case 6 => kf.cipher
    case 7 => HexOf(kf.nonce)
    case 8 => HexOf(kf.pubkey)
    case 9 => kf.address
    case 10 => HexOf(kf.ciphertext)
    case _ => HexOf(kf.mac)
  }

  function FieldLine(name: string, value: string): string { name + ": " + value }

  /** The magic and the first n fields. */
  function RenderLines(kf: KeyFile, n: nat): (ls: seq<string>)
    requires n <= 12
    ensures |ls| == n + 1
  {
    if n == 0 then [MAGIC] else RenderLines(kf, n - 1) + [FieldLine(FieldName(n - 1), FieldText(kf, n - 1))]
  }

  function Render(kf: KeyFile): string { Unlines(RenderLines(kf, 12)) }

  /** What the mac covers: everything but itself. */
  function MacInput(kf: KeyFile): string { Unlines(RenderLines(kf, 11)) }

  function StripCr(s: string): string { if s != "" && s[|s| - 1] == '\r' then s[..|s| - 1] else s }

  function StripAll(ls: seq<string>): (r: seq<string>)
    ensures |r| == |ls|
  {
    seq(|ls|, i requires 0 <= i < |ls| => StripCr(ls[i]))
  }

  /** The lines of a text: a carriage return before a newline and a final newline are optional. */
  function Lines(text: string): seq<string> {
    var ls := StripAll(Split(text, '\n'));
    if ls[|ls| - 1] == "" then ls[..|ls| - 1] else ls
  }

  /** The first ": " of a line parts it. */
  function SplitOnce(s: string): Option<(string, string)> {
    if |s| < 2 then None
    else if s[0] == ':' && s[1] == ' ' then Some(("", s[2..]))
    else
      match SplitOnce(s[1..])
      case None => None
      case Some(p) => Some(([s[0]] + p.0, p.1))
  }

  lemma {:induction false} SplitOnceAt(name: string, value: string)
    requires ':' !in name
    ensures SplitOnce(FieldLine(name, value)) == Some((name, value))
  {
    var s := FieldLine(name, value);
    if name == "" {
      assert s[2..] == value;
    } else {
      SplitOnceAt(name[1..], value);
      assert s[1..] == FieldLine(name[1..], value);
      assert [name[0]] + name[1..] == name;
    }
  }

  lemma {:induction false} SplitOnceBack(s: string)
    requires SplitOnce(s).Some?
    ensures s == FieldLine(SplitOnce(s).value.0, SplitOnce(s).value.1)
  {
    if !(s[0] == ':' && s[1] == ' ') {
      SplitOnceBack(s[1..]);
      assert s == [s[0]] + s[1..];
    }
  }

  lemma NameHasNoColon(i: nat)
    requires i < 12
    ensures ':' !in FieldName(i) && '\n' !in FieldName(i) && IsAscii(FieldName(i))
  {
  }

  // ----- parsing -----

  /** The values of the first n fields, in the fixed order. */
  function Values(ls: seq<string>, n: nat): Result<seq<string>, KeyError>
    requires n <= 12 && |ls| == 13
  {
    if n == 0 then Ok([])
    else
      var r := Values(ls, n - 1);
      if r.Err? then r
      else
        match SplitOnce(ls[n])
        case None => Err(BadField(n + 1))
        case Some(p) =>
          if p.0 != FieldName(n - 1) || p.1 == "" then Err(BadField(n + 1)) else Ok(r.value + [p.1])
  }

  function HexField(s: string, len: nat): Option<seq<Byte>> {
    match FromHex(s) case None => None case Some(b) => if |b| == len then Some(b) else None
  }

  /** The fields read, or the line of the first that cannot be. */
  function ReadFields(v: seq<string>): Result<KeyFile, KeyError>
    requires |v| == 12
  {
    var version, created, iters := ParseNat(v[0], MAX_U64), ParseNat(v[2], MAX_U64), ParseNat(v[4], MAX_U64);
    var role, salt, nonce := RoleOf(v[1]), HexField(v[5], 32), HexField(v[7], 16);
    var pubkey, ciphertext, mac := HexField(v[8], 32), HexField(v[10], 32), HexField(v[11], 32);
    if version != Some(1) then Err(BadField(2))
    else if role.None? then Err(BadField(3))
    else if created.None? then Err(BadField(4))
    else if iters.None? then Err(BadField(6))
    else if salt.None? then Err(BadField(7))
    else if nonce.None? then Err(BadField(9))
    else if pubkey.None? then Err(BadField(10))
    else if ciphertext.None? then Err(BadField(12))
    else if mac.None? then Err(BadField(13))
    else Ok(KeyFile(1, role.value, created.value, v[3], iters.value, salt.value, v[6], nonce.value, pubkey.value, v[9],
                    ciphertext.value, mac.value))
  }

  /** Work factors a file may carry. */
  predicate WorkInRange(kdf: string, iters: nat) {
    && (kdf == KDF_NONE ==> iters == 0)
    && (kdf == KDF_ARGON2ID ==> 1 <= iters <= ARGON2_MAX_PASSES)
    && iters <= MAX_ITERS
  }

  function Parse(address: seq<Byte> -> string, text: string): Result<KeyFile, KeyError> {
    var ls := Lines(text);
    if !IsAscii(text) then Err(NonAscii)
    else if ls == [] then Err(Empty)
    else if ls[0] != MAGIC then Err(BadMagic)
    else if |ls| != 13 then Err(BadLineCount)
    else
      var v := Values(ls, 12);
      if v.Err? then Err(v.error)
      else
        ValuesCount(ls, 12);
        var kf := ReadFields(v.value);
        if kf.Err? then kf
        else if address(kf.value.pubkey) != kf.value.address then Err(BadField(11))
        else if !WorkInRange(kf.value.kdf, kf.value.iters) then Err(BadWork)
        else if Render(kf.value) != Unlines(ls) then Err(NotCanonical)
        else kf
  }

  lemma {:induction false} ValuesCount(ls: seq<string>, n: nat)
    requires n <= 12 && |ls| == 13
    ensures Values(ls, n).Ok? ==> |Values(ls, n).value| == n
  {
    if n > 0 {
      ValuesCount(ls, n - 1);
    }
  }

  /** A key file that a text can stand for. */
  ghost predicate Storable(address: seq<Byte> -> string, kf: KeyFile) {
    && kf.version == 1 && kf.created <= MAX_U64 && kf.iters <= MAX_U64 && WorkInRange(kf.kdf, kf.iters)
    && |kf.salt| == |kf.pubkey| == |kf.ciphertext| == |kf.mac| == 32 && |kf.nonce| == 16
    && kf.address == address(kf.pubkey)
    && (forall i :: 0 <= i < 12 ==> FieldText(kf, i) != "" && '\n' !in FieldText(kf, i))
  }

  // ----- parsing accepts exactly the renders -----

  lemma RoleNames(r: Role)
    ensures RoleOf(RoleName(r)) == Some(r)
  {
  }

  lemma {:induction false} RenderedLine(kf: KeyFile, n: nat, i: nat)
    requires i < n <= 12
    ensures RenderLines(kf, n)[i + 1] == FieldLine(FieldName(i), FieldText(kf, i))
    ensures RenderLines(kf, n)[0] == MAGIC
  {
    hide FieldLine, FieldName, FieldText;
    if i < n - 1 {
      RenderedLine(kf, n - 1, i);
    } else if n > 1 {
      RenderedLine(kf, n - 1, 0);
    }
  }

  function Texts(kf: KeyFile, n: nat): (r: seq<string>)
    requires n <= 12
    ensures |r| == n && forall i :: 0 <= i < n ==> r[i] == FieldText(kf, i)
  {
    if n == 0 then [] else Texts(kf, n - 1) + [FieldText(kf, n - 1)]
  }

  lemma {:induction false} ValuesOfRender(kf: KeyFile, n: nat)
    requires n <= 12 && forall i :: 0 <= i < 12 ==> FieldText(kf, i) != ""
    ensures Values(RenderLines(kf, 12), n) == Ok(Texts(kf, n))
  {
    hide FieldName, FieldText, RenderLines, FieldLine, SplitOnce;
    if n > 0 {
      ValuesOfRender(kf, n - 1);
      RenderedLine(kf, 12, n - 1);
      NameHasNoColon(n - 1);
      SplitOnceAt(FieldName(n - 1), FieldText(kf, n - 1));
    }
  }

  lemma HexBack(b: seq<Byte>)
    ensures HexField(HexOf(b), |b|) == Some(b)
  {
    DecodeEncode(b);
    hide HexOf, Bytes;
  }

  lemma ReadBack(kf: KeyFile)
    requires kf.version == 1 && kf.created <= MAX_U64 && kf.iters <= MAX_U64
    requires |kf.salt| == |kf.pubkey| == |kf.ciphertext| == |kf.mac| == 32 && |kf.nonce| == 16
    ensures ReadFields(Texts(kf, 12)) == Ok(kf)
  {
    hide HexOf, Decimal, ParseNat, HexField, RoleOf, RoleName, Texts;
    ParseDecimal(1, MAX_U64);
    ParseDecimal(kf.created, MAX_U64);
    ParseDecimal(kf.iters, MAX_U64);
    RoleNames(kf.role);
    HexBack(kf.salt);
    HexBack(kf.nonce);
    HexBack(kf.pubkey);
    HexBack(kf.ciphertext);
    HexBack(kf.mac);
  }

  lemma RendersParse(address: seq<Byte> -> string, text: string, kf: KeyFile)
    requires IsAscii(text) && Storable(address, kf) && Lines(text) == RenderLines(kf, 12)
    ensures Parse(address, text) == Ok(kf)
  {
    hide FieldText, FieldName, RenderLines, Values, ReadFields, Lines;
    RenderedLine(kf, 12, 0);
    ValuesOfRender(kf, 12);
    ReadBack(kf);
  }

  lemma {:induction false} ValuesNonEmpty(ls: seq<string>, n: nat)
    requires n <= 12 && |ls| == 13 && Values(ls, n).Ok?
    requires forall k :: 0 <= k < 13 ==> '\n' !in ls[k]
    ensures |Values(ls, n).value| == n
    ensures forall i :: 0 <= i < n ==> Values(ls, n).value[i] != "" && '\n' !in Values(ls, n).value[i]
  {
    hide FieldName, SplitOnce;
    if n > 0 {
      ValuesNonEmpty(ls, n - 1);
      SplitOnceBack(ls[n]);
      LineKeepsValue(SplitOnce(ls[n]).value.0, SplitOnce(ls[n]).value.1);
    }
  }

  lemma LineKeepsValue(name: string, value: string)
    requires '\n' !in FieldLine(name, value)
    ensures '\n' !in value
  {
    var s := FieldLine(name, value);
    forall k | 0 <= k < |value| ensures value[k] != '\n' {
      assert s[|name| + 2 + k] == value[k];
    }
  }

  lemma LinesClean(text: string)
    ensures forall k :: 0 <= k < |Lines(text)| ==> '\n' !in Lines(text)[k]
  {
    PiecesClean(text, '\n');
    hide Split;
  }

  lemma HexPlain(b: seq<Byte>)
    ensures '\n' !in HexOf(b) && '\r' !in HexOf(b) && IsAscii(HexOf(b))
  {
    HexOfShape(b);
    hide HexOf;
  }

  lemma DecimalPlain(n: nat)
    ensures Decimal(n) != "" && '\n' !in Decimal(n) && '\r' !in Decimal(n) && IsAscii(Decimal(n))
  {
    DecimalDigits(n);
    hide Decimal, DigitsVal;
  }

  /** Only the three free texts can hold anything but letters, digits, hex and dashes. */
  lemma PlainFields(kf: KeyFile, i: nat)
    requires i < 12 && i !in {3, 6, 9}
    ensures '\n' !in FieldText(kf, i) && '\r' !in FieldText(kf, i) && IsAscii(FieldText(kf, i))
    ensures i in {0, 1, 2, 4} ==> FieldText(kf, i) != ""
  {
    hide Decimal, HexOf;
    DecimalPlain(kf.version);
    DecimalPlain(kf.created);
    DecimalPlain(kf.iters);
    HexPlain(kf.salt);
    HexPlain(kf.nonce);
    HexPlain(kf.pubkey);
    HexPlain(kf.ciphertext);
    HexPlain(kf.mac);
  }

  lemma LineClean(kf: KeyFile, i: nat)
    requires i < 12 && '\n' !in FieldText(kf, i)
    ensures '\n' !in FieldLine(FieldName(i), FieldText(kf, i))
  {
    NameHasNoColon(i);
    hide FieldName, FieldText;
  }

  lemma RenderClean(kf: KeyFile)
    requires forall i :: 0 <= i < 12 ==> '\n' !in FieldText(kf, i)
    ensures forall k :: 0 <= k < 13 ==> '\n' !in RenderLines(kf, 12)[k]
  {
    hide FieldName, FieldText, FieldLine, RenderLines;
    forall k | 0 <= k < 13 ensures '\n' !in RenderLines(kf, 12)[k] {
      RenderedLine(kf, 12, if k == 0 then 0 else k - 1);
      if k > 0 {
        LineClean(kf, k - 1);
      }
    }
  }

  lemma FreeTexts(v: seq<string>, kf: KeyFile)
    requires |v| == 12 && ReadFields(v) == Ok(kf)
    ensures kf.kdf == v[3] && kf.cipher == v[6] && kf.address == v[9] && kf.version == 1
    ensures kf.created <= MAX_U64 && kf.iters <= MAX_U64
    ensures |kf.salt| == |kf.pubkey| == |kf.ciphertext| == |kf.mac| == 32 && |kf.nonce| == 16
  {
    hide FromHex, DigitsVal, AllDigits, RoleOf;
  }

  lemma HexNonEmpty(b: seq<Byte>)
    requires b != []
    ensures HexOf(b) != ""
  {
    HexOfShape(b);
    hide HexOf;
  }

  lemma ParsesRender(address: seq<Byte> -> string, text: string)
    requires Parse(address, text).Ok?
    ensures var kf := Parse(address, text).value;
            IsAscii(text) && Storable(address, kf) && Lines(text) == RenderLines(kf, 12)
  {
    hide FieldName, RenderLines, ReadFields, Lines, Decimal, HexOf, RoleName;
    var ls, kf := Lines(text), Parse(address, text).value;
    var v := Values(ls, 12).value;
    LinesClean(text);
    ValuesNonEmpty(ls, 12);
    hide Values;
    FreeTexts(v, kf);
    HexNonEmpty(kf.salt);
    HexNonEmpty(kf.nonce);
    HexNonEmpty(kf.pubkey);
    HexNonEmpty(kf.ciphertext);
    HexNonEmpty(kf.mac);
    forall i | 0 <= i < 12 ensures FieldText(kf, i) != "" && '\n' !in FieldText(kf, i) {
      if i !in {3, 6, 9} {
        PlainFields(kf, i);
      }
    }
    RenderClean(kf);
    UnlinesInjective(ls, RenderLines(kf, 12));
  }

  /** Parsing accepts exactly the ASCII texts whose lines are the canonical lines of some key
      file, and returns that file: what parses is its own render, up to line endings. */
  lemma ParseExact(address: seq<Byte> -> string, text: string, kf: KeyFile)
    ensures Parse(address, text) == Ok(kf) <==>
            IsAscii(text) && Storable(address, kf) && Lines(text) == RenderLines(kf, 12)
  {
    hide Parse, Storable, Lines, RenderLines;
    if Parse(address, text) == Ok(kf) {
      ParsesRender(address, text);
    }
    if IsAscii(text) && Storable(address, kf) && Lines(text) == RenderLines(kf, 12) {
      RendersParse(address, text, kf);
    }
  }

  // ----- rendering and reading back -----

  predicate EndsCr(s: string) { s != "" && s[|s| - 1] == '\r' }

  lemma LineEnd(name: string, value: string)
    requires value != ""
    ensures StripCr(FieldLine(name, value)) == FieldLine(name, value) <==> !EndsCr(value)
  {
    var s := FieldLine(name, value);
    assert s[|s| - 1] == value[|value| - 1];
    assert |StripCr(s)| == |s| <==> !EndsCr(value);
  }

  lemma LinesOfRender(kf: KeyFile)
    requires forall i :: 0 <= i < 12 ==> FieldText(kf, i) != "" && '\n' !in FieldText(kf, i)
    ensures Lines(Render(kf)) == StripAll(RenderLines(kf, 12))
  {
    hide FieldName, FieldText, RenderLines, Split, Unlines;
    var ls := RenderLines(kf, 12);
    RenderClean(kf);
    SplitUnlines(ls);
    assert StripAll(ls + [""])[..13] == StripAll(ls);
  }

  lemma RenderAscii(kf: KeyFile)
    requires IsAscii(kf.kdf) && IsAscii(kf.cipher) && IsAscii(kf.address)
    ensures IsAscii(Render(kf))
  {
    hide FieldName, RenderLines, Unlines, Decimal, HexOf, RoleName;
    forall k | 0 <= k < 13 ensures IsAscii(RenderLines(kf, 12)[k]) {
      RenderedLine(kf, 12, if k == 0 then 0 else k - 1);
      if k > 0 {
        NameHasNoColon(k - 1);
        if k - 1 !in {3, 6, 9} {
          PlainFields(kf, k - 1);
        }
      }
    }
    UnlinesAscii(RenderLines(kf, 12));
  }

  lemma {:induction false} UnlinesAscii(ls: seq<string>)
    requires forall k :: 0 <= k < |ls| ==> IsAscii(ls[k])
    ensures IsAscii(Unlines(ls))
  {
    if ls != [] {
      UnlinesAscii(ls[1..]);
    }
  }

  /** A storable file whose free texts are ASCII reads back as itself exactly when none of
      them ends in a carriage return, which the reader would take for a line ending. */
  lemma ParseRender(address: seq<Byte> -> string, kf: KeyFile)
    requires Storable(address, kf) && IsAscii(kf.kdf) && IsAscii(kf.cipher) && IsAscii(kf.address)
    ensures Parse(address, Render(kf)) == Ok(kf) <==> !EndsCr(kf.kdf) && !EndsCr(kf.cipher) && !EndsCr(kf.address)
  {
    hide Parse, Storable, Lines, RenderLines, Render, Unlines, StripCr, FieldLine;
    StorableFields(address, kf);
    LinesOfRender(kf);
    RenderAscii(kf);
    ParseExact(address, Render(kf), kf);
    StripSame(kf);
  }

  lemma StorableFields(address: seq<Byte> -> string, kf: KeyFile)
    requires Storable(address, kf)
    ensures forall i :: 0 <= i < 12 ==> FieldText(kf, i) != "" && '\n' !in FieldText(kf, i)
  {
  }

  lemma StripLine(kf: KeyFile, i: nat)
    requires i < 12 && FieldText(kf, i) != ""
    ensures StripCr(RenderLines(kf, 12)[i + 1]) == RenderLines(kf, 12)[i + 1] <==> !EndsCr(FieldText(kf, i))
    ensures i !in {3, 6, 9} ==> !EndsCr(FieldText(kf, i))
  {
    hide StripCr, FieldLine, FieldName, RenderLines, FieldText;
    RenderedLine(kf, 12, i);
    LineEnd(FieldName(i), FieldText(kf, i));
    if i !in {3, 6, 9} {
      PlainFields(kf, i);
    }
  }

  lemma StripSame(kf: KeyFile)
    requires forall i :: 0 <= i < 12 ==> FieldText(kf, i) != ""
    ensures StripAll(RenderLines(kf, 12)) == RenderLines(kf, 12)
            <==> !EndsCr(kf.kdf) && !EndsCr(kf.cipher) && !EndsCr(kf.address)
  {
    hide StripCr, RenderLines, Decimal, HexOf, RoleName, EndsCr;
    var ls := RenderLines(kf, 12);
    StripLine(kf, 3);
    StripLine(kf, 6);
    StripLine(kf, 9);
    if !EndsCr(kf.kdf) && !EndsCr(kf.cipher) && !EndsCr(kf.address) {
      forall k | 0 <= k < 13 ensures StripAll(ls)[k] == ls[k] {
        if k == 0 {
          RenderedLine(kf, 12, 0);
          MagicPlain();
        } else {
          StripLine(kf, k - 1);
        }
      }
    } else {
      var i := if EndsCr(kf.kdf) then 3 else if EndsCr(kf.cipher) then 6 else 9;
      assert StripAll(ls)[i + 1] != ls[i + 1];
    }
  }

  lemma MagicPlain()
    ensures StripCr(MAGIC) == MAGIC
  {
  }

  // ----- a file that does not read back -----

  function WithCr(ls: seq<string>): (r: seq<string>)
    ensures |r| == |ls|
  {
    seq(|ls|, i requires 0 <= i < |ls| => ls[i] + "\r")
  }

  /** The render with a carriage return before every newline. */
  function CrLf(kf: KeyFile): string { Unlines(WithCr(RenderLines(kf, 12))) }

  lemma LinesOfCrLf(kf: KeyFile)
    requires forall i :: 0 <= i < 12 ==> '\n' !in FieldText(kf, i)
    ensures Lines(CrLf(kf)) == RenderLines(kf, 12)
  {
    hide FieldName, FieldText, RenderLines, Split, Unlines;
    var ls := RenderLines(kf, 12);
    RenderClean(kf);
    SplitUnlines(WithCr(ls));
    var all := StripAll(WithCr(ls) + [""]);
    assert all[13] == "";
    forall k | 0 <= k < 13 ensures all[k] == ls[k] {
      assert (ls[k] + "\r")[..|ls[k]|] == ls[k];
    }
    assert all[..13] == ls;
  }

  lemma CrLfAscii(kf: KeyFile)
    requires IsAscii(kf.kdf) && IsAscii(kf.cipher) && IsAscii(kf.address)
    ensures IsAscii(CrLf(kf))
  {
    hide FieldName, RenderLines, Unlines, Decimal, HexOf, RoleName;
    forall k | 0 <= k < 13 ensures IsAscii(WithCr(RenderLines(kf, 12))[k]) {
      RenderedLine(kf, 12, if k == 0 then 0 else k - 1);
      if k > 0 {
        NameHasNoColon(k - 1);
        if k - 1 !in {3, 6, 9} {
          PlainFields(kf, k - 1);
        }
      }
    }
    UnlinesAscii(WithCr(RenderLines(kf, 12)));
  }

  /** Every storable file, also one whose free texts end in a carriage return, is read from
      some text. */
  lemma CrLfParses(address: seq<Byte> -> string, kf: KeyFile)
    requires Storable(address, kf) && IsAscii(kf.kdf) && IsAscii(kf.cipher) && IsAscii(kf.address)
    ensures Parse(address, CrLf(kf)) == Ok(kf)
  {
    hide Parse, Storable, Lines, RenderLines, CrLf;
    StorableFields(address, kf);
    LinesOfCrLf(kf);
    CrLfAscii(kf);
    ParseExact(address, CrLf(kf), kf);
  }

  /** A file with the derivation name "x" and a carriage return. */
  function Example(address: seq<Byte> -> string): KeyFile {
    var h, n := seq(32, i => 0), seq(16, i => 0);
    KeyFile(1, Spend, 0, "x\r", 0, h, "none", n, h, address(h), h, h)
  }

  /** Read from a text whose line is the name with two carriage returns, it carries the one,
      and its render reads back as something else or not at all. */
  lemma CarriageReturnLost(address: seq<Byte> -> string)
    requires PlainWord(Example(address).address)
    ensures var kf := Example(address);
            EndsCr(kf.kdf) && Parse(address, CrLf(kf)) == Ok(kf) && Parse(address, Render(kf)) != Ok(kf)
  {
    hide Parse, Render, CrLf;
    var kf := Example(address);
    ExampleStorable(address);
    CrLfParses(address, kf);
    ParseRender(address, kf);
  }

  lemma ExampleStorable(address: seq<Byte> -> string)
    requires PlainWord(Example(address).address)
    ensures Storable(address, Example(address)) && EndsCr(Example(address).kdf)
    ensures IsAscii(Example(address).kdf) && IsAscii(Example(address).cipher)
  {
    hide Decimal, HexOf;
    var kf := Example(address);
    assert kf.kdf[0] == 'x' && KDF_NONE[0] == 'n' && KDF_ARGON2ID[0] == 'a';
    HexNonEmpty(kf.salt);
    HexNonEmpty(kf.nonce);
    forall i | 0 <= i < 12 ensures FieldText(kf, i) != "" && '\n' !in FieldText(kf, i) {
      if i !in {3, 6, 9} {
        PlainFields(kf, i);
      }
    }
  }

  // ----- the parser as it runs -----

  /** Reads the fields in order, one line at a time. */
  method ParseText(address: seq<Byte> -> string, text: string) returns (r: Result<KeyFile, KeyError>)
    ensures r == Parse(address, text)
  {
    hide SplitOnce, FieldName, Lines, Render, ReadFields;
    if !IsAscii(text) {
      return Err(NonAscii);
    }
    var ls := Lines(text);
    if ls == [] {
      return Err(Empty);
    }
    if ls[0] != MAGIC {
      return Err(BadMagic);
    }
    if |ls| != 13 {
      return Err(BadLineCount);
    }
    var values: seq<string> := [];
    for i := 0 to 12
      invariant Values(ls, i) == Ok(values)
    {
      var p := SplitOnce(ls[i + 1]);
      if p.None? || p.value.0 != FieldName(i) || p.value.1 == "" {
        ValuesStuck(ls, i + 1, 12);
        return Err(BadField(i + 2));
      }
      values := values + [p.value.1];
    }
    ValuesCount(ls, 12);
    var kf := ReadFields(values);
    if kf.Err? {
      return kf;
    }
    if address(kf.value.pubkey) != kf.value.address {
      return Err(BadField(11));
    }
    if !WorkInRange(kf.value.kdf, kf.value.iters) {
      return Err(BadWork);
    }
    if Render(kf.value) != Unlines(ls) {
      return Err(NotCanonical);
    }
    r := kf;
  }

  lemma {:induction false} ValuesStuck(ls: seq<string>, i: nat, n: nat)
    requires i <= n <= 12 && |ls| == 13 && Values(ls, i).Err?
    ensures Values(ls, n) == Values(ls, i)
    decreases n
  {
    hide SplitOnce, FieldName;
    if i < n {
      ValuesStuck(ls, i, n - 1);
    }
  }

  // ----- sealing and opening -----

  /** What the wallet does not compute itself: public keys, addresses, BLAKE3 over a list of
      parts, and argon2id where the program installed it. */
  datatype Crypto = Crypto(
    pub: seq<Byte> -> seq<Byte>,
    address: seq<Byte> -> string,
    hash: seq<seq<Byte>> -> seq<Byte>,
    argon: (seq<Byte>, seq<Byte>, nat) -> Option<seq<Byte>>)
  {
    /** Sizes, and that an address is a non-empty ASCII word. */
    ghost predicate Lawful() {
      && (forall s: seq<Byte> :: |pub(s)| == 32)
      && (forall parts: seq<seq<Byte>> :: |hash(parts)| == 32)
      && (forall p: seq<Byte> :: PlainWord(address(p)))
    }
  }

  predicate PlainWord(s: string) { s != "" && IsAscii(s) && '\n' !in s && '\r' !in s }

  datatype Kdf = Blake3Iter(iters: nat) | Argon2id(passes: nat) {
    function Name(): string { if Blake3Iter? then KDF_BLAKE3 else KDF_ARGON2ID }

    function Work(): nat { if Blake3Iter? then iters else passes }

    predicate Check() { if Blake3Iter? then iters <= MAX_ITERS else 1 <= passes <= ARGON2_MAX_PASSES }
  }

  function KdfFromFile(name: string, work: nat): Option<Kdf> {
    if name == KDF_BLAKE3 then Some(Blake3Iter(work))
    else if name == KDF_ARGON2ID then Some(Argon2id(work))
    else None
  }

  function Tag(s: string): seq<Byte> { seq(|s|, i requires 0 <= i < |s| => s[i] as nat % 256) }

  function Le64(n: nat): seq<Byte> { LeBytes(n, 8) }

  function LeBytes(n: nat, k: nat): seq<Byte> { if k == 0 then [] else [n % 256] + LeBytes(n / 256, k - 1) }

  /** The chain of hashes, each folding in the salt and its number. */
  function KeyAfter(c: Crypto, pass: seq<Byte>, salt: seq<Byte>, n: nat): seq<Byte> {
    if n == 0 then c.hash([Tag("PLNE-wallet-kdf-v1"), salt, pass])
    else c.hash([Tag("PLNE-wallet-kdf-v1"), salt, Le64(n - 1), KeyAfter(c, pass, salt, n - 1)])
  }

  method DeriveKey(c: Crypto, pass: seq<Byte>, salt: seq<Byte>, iters: nat) returns (k: seq<Byte>)
    ensures k == KeyAfter(c, pass, salt, iters)
  {
    k := c.hash([Tag("PLNE-wallet-kdf-v1"), salt, pass]);
    for i := 0 to iters
      invariant k == KeyAfter(c, pass, salt, i)
    {
      k := c.hash([Tag("PLNE-wallet-kdf-v1"), salt, Le64(i), k]);
    }
  }

  function Derive(c: Crypto, kdf: Kdf, pass: seq<Byte>, salt: seq<Byte>): Option<seq<Byte>> {
    match kdf
    case Blake3Iter(iters) => Some(KeyAfter(c, pass, salt, iters))
    case Argon2id(passes) => c.argon(pass, salt, passes)
  }

  function Xor(a: nat, b: nat): nat {
    if a == 0 && b == 0 then 0 else (if a % 2 == b % 2 then 0 else 1) + 2 * Xor(a / 2, b / 2)
  }

  lemma {:induction false} XorBound(a: nat, b: nat, n: nat)
    requires a < n && b < n && n in {1, 2, 4, 8, 16, 32, 64, 128, 256}
    ensures Xor(a, b) < n
    decreases n
  {
    if n > 1 {
      XorBound(a / 2, b / 2, n / 2);
    }
  }

  lemma {:induction false} XorTwice(a: nat, b: nat)
    ensures Xor(Xor(a, b), b) == a
  {
    if a != 0 || b != 0 {
      XorTwice(a / 2, b / 2);
      assert Xor(a, b) / 2 == Xor(a / 2, b / 2);
    }
  }

  function XorByte(a: Byte, b: Byte): Byte { XorBound(a, b, 256); Xor(a, b) }

  function Xored(a: seq<Byte>, b: seq<Byte>): (r: seq<Byte>)
    requires |a| <= |b|
    ensures |r| == |a|
  {
    seq(|a|, i requires 0 <= i < |a| => XorByte(a[i], b[i]))
  }

  function Keystream(c: Crypto, key: seq<Byte>, nonce: seq<Byte>): seq<Byte> {
    c.hash([Tag("PLNE-wallet-enc-v1"), key, nonce, Le64(0)])
  }

  /** The seed against the keystream, byte by byte. */
  method XorSeed(c: Crypto, key: seq<Byte>, nonce: seq<Byte>, input: seq<Byte>) returns (out: array<Byte>)
    requires |input| == 32 == |Keystream(c, key, nonce)|
    ensures fresh(out) && out[..] == Xored(input, Keystream(c, key, nonce))
  {
    var ks := Keystream(c, key, nonce);
    out := new Byte[32](_ => 0);
    for i := 0 to 32
      invariant forall j :: 0 <= j < i ==> out[j] == XorByte(input[j], ks[j])
    {
      out[i] := XorByte(input[i], ks[i]);
    }
  }

  function MacOf(c: Crypto, key: seq<Byte>, message: string): seq<Byte> {
    c.hash([Tag("PLNE-wallet-mac-v1"), key, Tag(message)])
  }

  function NullKey(): seq<Byte> { seq(32, _ => 0) }

  /** The sealed file before its mac, and the key that will make it. */
  function Sealing(c: Crypto, role: Role, created: nat, seed: seq<Byte>, pass: Option<seq<Byte>>,
                   with: Kdf): Result<(KeyFile, seq<Byte>), KeyError>
    requires c.Lawful() && |seed| == 32
  {
    var salt := c.hash([Tag("PLNE-wallet-salt-v1"), seed, Le64(created)]);
    var nonce := c.hash([Tag("PLNE-wallet-nonce-v1"), seed, Le64(created)])[..16];
    var pubkey := c.pub(seed);
    match pass
    case None =>
      Ok((KeyFile(1, role, created, KDF_NONE, 0, salt, CIPHER_NONE, nonce, pubkey, c.address(pubkey), seed, NullKey()),
          NullKey()))
    case Some(p) =>
      if !with.Check() then Err(BadWork)
      else
        match Derive(c, with, p, salt)
        case None => Err(NoArgon)
        case Some(key) =>
          Ok((KeyFile(1, role, created, with.Name(), with.Work(), salt, CIPHER_BLAKE3, nonce, pubkey, c.address(pubkey),
                      Xored(seed, Keystream(c, key, nonce)), NullKey()), key))
  }

  function Seal(c: Crypto, role: Role, created: nat, seed: seq<Byte>, pass: Option<seq<Byte>>,
                with: Kdf): Result<KeyFile, KeyError>
    requires c.Lawful() && |seed| == 32
  {
    match Sealing(c, role, created, seed, pass, with)
    case Err(e) => Err(e)
    case Ok((kf, key)) => Ok(kf.(mac := MacOf(c, key, MacInput(kf))))
  }

  function OpenKey(c: Crypto, kf: KeyFile, pass: Option<seq<Byte>>): Result<seq<Byte>, KeyError> {
    if kf.kdf == KDF_NONE then if pass.Some? then Err(NotEncrypted) else Ok(NullKey())
    else if pass.None? then Err(NeedsPassphrase)
    else
      match KdfFromFile(kf.kdf, kf.iters)
      case None => Err(UnknownKdf)
      case Some(w) =>
        if kf.cipher != CIPHER_BLAKE3 then Err(UnknownCipher)
        else
          match Derive(c, w, pass.value, kf.salt)
          case None => Err(NoArgon)
          case Some(key) => Ok(key)
  }

  function Open(c: Crypto, kf: KeyFile, pass: Option<seq<Byte>>): Result<seq<Byte>, KeyError>
    requires c.Lawful() && |kf.ciphertext| == 32
  {
    match OpenKey(c, kf, pass)
    case Err(e) => Err(e)
    case Ok(key) =>
      if MacOf(c, key, MacInput(kf)) != kf.mac then Err(MacMismatch)
      else
        var seed := if kf.kdf == KDF_NONE then kf.ciphertext else Xored(kf.ciphertext, Keystream(c, key, kf.nonce));
        if c.pub(seed) != kf.pubkey then Err(WrongPubkey) else Ok(seed)
  }

  lemma {:induction false} MacInputIgnoresMac(kf: KeyFile, mac: seq<Byte>, n: nat)
    requires n <= 11
    ensures RenderLines(kf.(mac := mac), n) == RenderLines(kf, n)
  {
    hide Decimal, HexOf, FieldName, FieldLine, RoleName;
    if n > 0 {
      MacInputIgnoresMac(kf, mac, n - 1);
    }
  }

  lemma XoredTwice(a: seq<Byte>, b: seq<Byte>)
    requires |a| <= |b|
    ensures Xored(Xored(a, b), b) == a
  {
    forall i | 0 <= i < |a| ensures Xored(Xored(a, b), b)[i] == a[i] {
      XorTwice(a[i], b[i]);
    }
  }

  lemma KdfNames(k: Kdf)
    ensures KdfFromFile(k.Name(), k.Work()) == Some(k) && k.Name() != KDF_NONE
  {
    assert |KDF_NONE| == 4 && |KDF_BLAKE3| == 14 && |KDF_ARGON2ID| == 11;
  }

  /** Sealing succeeds exactly when there is no passphrase, or the work factor is in range
      and the derivation function is there; what it seals opens to the seed. */
  lemma SealOpens(c: Crypto, role: Role, created: nat, seed: seq<Byte>, pass: Option<seq<Byte>>, with: Kdf)
    requires c.Lawful() && |seed| == 32
    ensures var r := Seal(c, role, created, seed, pass, with);
            && (r.Ok? <==> pass.None? || (with.Check()
                                          && Derive(c, with, pass.value,
                                                    c.hash([Tag("PLNE-wallet-salt-v1"), seed, Le64(created)])).Some?))
            && (r.Ok? ==> |r.value.ciphertext| == 32 && Open(c, r.value, pass) == Ok(seed))
  {
    hide Tag, Le64, Derive, MacOf, Keystream, Xored, Kdf.Check, Kdf.Name, Kdf.Work, KdfFromFile, RenderLines, Unlines;
    var s := Sealing(c, role, created, seed, pass, with);
    if s.Ok? {
      var kf, key := s.value.0, s.value.1;
      MacInputIgnoresMac(kf, MacOf(c, key, MacInput(kf)), 11);
      KdfNames(with);
      if pass.Some? {
        KeystreamSize(c, key, kf.nonce);
        XoredTwice(seed, Keystream(c, key, kf.nonce));
      }
    }
  }

  lemma KeystreamSize(c: Crypto, key: seq<Byte>, nonce: seq<Byte>)
    requires c.Lawful()
    ensures |Keystream(c, key, nonce)| == 32
  {
    hide Tag, Le64;
  }

  lemma NamesPlain()
    ensures PlainWord(KDF_NONE) && PlainWord(KDF_BLAKE3) && PlainWord(KDF_ARGON2ID)
    ensures PlainWord(CIPHER_NONE) && PlainWord(CIPHER_BLAKE3)
  {
  }

  lemma SealedStorable(c: Crypto, role: Role, created: nat, seed: seq<Byte>, pass: Option<seq<Byte>>, with: Kdf)
    requires c.Lawful() && |seed| == 32 && created <= MAX_U64 && Seal(c, role, created, seed, pass, with).Ok?
    ensures var kf := Seal(c, role, created, seed, pass, with).value;
            && Storable(c.address, kf) && PlainWord(kf.kdf) && PlainWord(kf.cipher) && PlainWord(kf.address)
  {
    hide Tag, Le64, Derive, MacOf, Keystream, RenderLines, Unlines, HexOf, Decimal, RoleName;
    var kf := Seal(c, role, created, seed, pass, with).value;
    NamesPlain();
    assert |KDF_NONE| == 4 && |KDF_BLAKE3| == 14 && |KDF_ARGON2ID| == 11;
    var unsealed := Sealing(c, role, created, seed, pass, with).value;
    MacSize(c, unsealed.1, MacInput(unsealed.0));
    HexNonEmpty(kf.salt);
    HexNonEmpty(kf.nonce);
    HexNonEmpty(kf.pubkey);
    HexNonEmpty(kf.ciphertext);
    HexNonEmpty(kf.mac);
    forall i | 0 <= i < 12 ensures FieldText(kf, i) != "" && '\n' !in FieldText(kf, i) {
      if i !in {3, 6, 9} {
        PlainFields(kf, i);
      }
    }
  }

  lemma MacSize(c: Crypto, key: seq<Byte>, message: string)
    requires c.Lawful()
    ensures |MacOf(c, key, message)| == 32
  {
    hide Tag;
  }

  /** Seal, render, parse, open gives the seed back: for every role, time, passphrase and
      admissible key derivation, and whatever line endings the text has come to have. */
  lemma SealRoundTrip(c: Crypto, role: Role, created: nat, seed: seq<Byte>, pass: Option<seq<Byte>>, with: Kdf,
                      text: string)
    requires c.Lawful() && |seed| == 32 && created <= MAX_U64 && Seal(c, role, created, seed, pass, with).Ok?
    requires var kf := Seal(c, role, created, seed, pass, with).value;
             IsAscii(text) && Lines(text) == Lines(Render(kf))
    ensures var kf := Seal(c, role, created, seed, pass, with).value;
            && Parse(c.address, text) == Ok(kf) && |kf.ciphertext| == 32 && Open(c, kf, pass) == Ok(seed)
            && Parse(c.address, Render(kf)) == Ok(kf)
  {
    hide Seal, Open, Parse, Storable, Lines, Render, RenderLines, IsAscii;
    var kf := Seal(c, role, created, seed, pass, with).value;
    SealOpens(c, role, created, seed, pass, with);
    SealedStorable(c, role, created, seed, pass, with);
    ParseRender(c.address, kf);
    ParseExact(c.address, Render(kf), kf);
    ParseExact(c.address, text, kf);
  }
}
