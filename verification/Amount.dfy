/** Amounts: exact decimal parsing and printing. One PLNE is 10^6 mile. */
module Amount {
  import opened Wrappers
  import opened Text

  const MAX_PARSE: nat := 1_000_000_000_000_000
  const MAX_U128: nat := 0xFFFF_FFFF_FFFF_FFFF_FFFF_FFFF_FFFF_FFFF
  const DECIMALS: nat := 6
  const MILE_PER_PLNE: nat := 1_000_000

  datatype AmountError =
    | NoUnit | NoDigits | Signed | Exponent | Separator | TwoPoints | FractionOfMile | NonDigit | TooFine | Overflow
    | Ceiling

  type Parsed = Result<nat, AmountError>

  predicate EndsWith(s: string, t: string) { |t| <= |s| && s[|s| - |t|..] == t }

  /** Zeros pushed on the right up to six digits. */
  function Padded(f: string): (p: string)
    requires |f| <= DECIMALS
    ensures |p| == DECIMALS
    decreases DECIMALS - |f|
  {
    if |f| == DECIMALS then f else Padded(f + "0")
  }

  method PadFraction(f: string) returns (p: string)
    requires |f| <= DECIMALS
    ensures p == Padded(f)
  {
    p := f;
    while |p| < DECIMALS
      invariant |p| <= DECIMALS && Padded(p) == Padded(f)
    {
      p := p + "0";
    }
  }

  lemma {:induction false} PaddedVal(f: string)
    requires |f| <= DECIMALS && AllDigits(f)
    ensures AllDigits(Padded(f)) && DigitsVal(Padded(f)) == DigitsVal(f) * Pow10(DECIMALS - |f|)
    decreases DECIMALS - |f|
  {
    hide DigitsVal, Pow10, AllDigits;
    if |f| == DECIMALS {
      PowNone();
    } else {
      var g := f + "0";
      ZeroShifts(f);
      PaddedVal(g);
      Regroup(DigitsVal(f), DECIMALS - |f|);
    }
  }

  lemma PowNone()
    ensures Pow10(0) == 1
  {
  }

  lemma ZeroShifts(f: string)
    requires AllDigits(f)
    ensures AllDigits(f + "0") && DigitsVal(f + "0") == 10 * DigitsVal(f)
  {
    assert (f + "0")[..|f + "0"| - 1] == f;
  }

  lemma Regroup(v: nat, k: nat)
    requires k > 0
    ensures (10 * v) * Pow10(k - 1) == v * Pow10(k)
  {
    assert Pow10(k) == Pow10(k - 1) * 10;
  }

  /** The part before the point and the part after it. */
  function Parts(num: string): (string, string) {
    var i := IndexOf(num, '.');
    if i == |num| then (num, "") else (num[..i], num[i + 1..])
  }

  function ParseDigits(num: string, mile: bool): Parsed {
    var i, f := Parts(num).0, Parts(num).1;
    if '.' in f then Err(TwoPoints)
    else if mile && f != "" then Err(FractionOfMile)
    else if i == "" && f == "" then Err(NoDigits)
    else if !AllDigits(i) || !AllDigits(f) then Err(NonDigit)
    else if |f| > DECIMALS then Err(TooFine)
    else if DigitsVal(i) > MAX_U128 then Err(Overflow)
    else if mile then Capped(DigitsVal(i))
    else
      PaddedVal(f);
      if DigitsVal(i) * MILE_PER_PLNE > MAX_U128 then Err(Overflow)
      else if DigitsVal(i) * MILE_PER_PLNE + DigitsVal(Padded(f)) > MAX_U128 then Err(Overflow)
      else Capped(DigitsVal(i) * MILE_PER_PLNE + DigitsVal(Padded(f)))
  }

  function Capped(n: nat): Parsed { if n > MAX_PARSE then Err(Ceiling) else Ok(n) }

  function ParseNum(num: string, mile: bool): Parsed {
    if num == "" then Err(NoDigits)
    else if num[0] == '+' || num[0] == '-' then Err(Signed)
    else if 'e' in num then Err(Exponent)
    else if '_' in num || ',' in num || ' ' in num then Err(Separator)
    else ParseDigits(num, mile)
  }

  function Parse(s: string): Parsed {
    var lower := Lower(s);
    if EndsWith(lower, "mile") then ParseNum(lower[..|lower| - 4], true)
    else if EndsWith(lower, "plne") then ParseNum(lower[..|lower| - 4], false)
    else Err(NoUnit)
  }

  // ----- what is accepted, declaratively -----

  /** Digits, optionally a point and more digits. */
  function Number(i: string, dot: bool, f: string): string { if dot then i + "." + f else i }

  predicate Wellformed(i: string, dot: bool, f: string) {
    AllDigits(i) && AllDigits(f) && (i != "" || f != "") && (f != "" ==> dot) && |f| <= DECIMALS
  }

  function Value(i: string, f: string): nat
    requires AllDigits(i) && AllDigits(f) && |f| <= DECIMALS
  {
    DigitsVal(i) * MILE_PER_PLNE + DigitsVal(f) * Pow10(DECIMALS - |f|)
  }

  /** The text is a number with a unit, and stands for v. */
  ghost predicate Denotes(s: string, v: nat) {
    exists i: string, dot: bool, f: string :: DenotesAs(s, v, i, dot, f)
  }

  predicate DenotesAs(s: string, v: nat, i: string, dot: bool, f: string) {
    && Wellformed(i, dot, f)
    && ((Lower(s) == Number(i, dot, f) + "plne" && v == Value(i, f))
        || (Lower(s) == Number(i, dot, f) + "mile" && f == "" && v == DigitsVal(i)))
  }

  lemma DigitsPlain(s: string, c: char)
    requires AllDigits(s) && !IsDigit(c)
    ensures c !in s
  {
  }

  lemma PartsOf(i: string, dot: bool, f: string)
    requires Wellformed(i, dot, f)
    ensures Parts(Number(i, dot, f)) == (i, f)
  {
    var num := Number(i, dot, f);
    DigitsPlain(i, '.');
    if dot {
      assert num == i + ['.'] + f;
      IndexAfter(i, '.', f);
      assert num[..|i|] == i && num[|i| + 1..] == f;
    } else {
      SplitWhole(i, '.');
    }
  }

  lemma NumberPlain(i: string, dot: bool, f: string)
    requires Wellformed(i, dot, f)
    ensures var num := Number(i, dot, f);
            && num != "" && num[0] !in "+-" && 'e' !in num && '_' !in num && ',' !in num && ' ' !in num
  {
    var num := Number(i, dot, f);
    forall k | 0 <= k < |num| ensures IsDigit(num[k]) || num[k] == '.' {
      if dot {
        assert num == i + "." + f;
      }
    }
  }

  lemma ParseNumber(i: string, dot: bool, f: string, mile: bool)
    requires Wellformed(i, dot, f) && (mile ==> f == "")
    ensures var v := if mile then DigitsVal(i) else Value(i, f);
            if v <= MAX_PARSE then ParseNum(Number(i, dot, f), mile) == Ok(v)
            else ParseNum(Number(i, dot, f), mile).Err?
  {
    hide DigitsVal, Padded, Pow10, Parts;
    NumberPlain(i, dot, f);
    PartsOf(i, dot, f);
    DigitsPlain(f, '.');
    PaddedVal(f);
  }

  lemma SuffixApart(s: string, num: string)
    requires s == num + "plne"
    ensures !EndsWith(s, "mile") && EndsWith(s, "plne") && s[..|s| - 4] == num
  {
    assert s[|s| - 4..] == "plne";
    assert "plne"[0] != "mile"[0];
  }

  lemma SuffixMile(s: string, num: string)
    requires s == num + "mile"
    ensures EndsWith(s, "mile") && s[..|s| - 4] == num
  {
    assert s[|s| - 4..] == "mile";
  }

  lemma DenotesParses(s: string, v: nat, i: string, dot: bool, f: string)
    requires DenotesAs(s, v, i, dot, f)
    ensures v <= MAX_PARSE ==> Parse(s) == Ok(v)
    ensures v > MAX_PARSE ==> Parse(s).Err?
  {
    hide ParseNum, DigitsVal, Pow10, EndsWith;
    var lower, num := Lower(s), Number(i, dot, f);
    if lower == num + "plne" && v == Value(i, f) {
      SuffixApart(lower, num);
      ParseNumber(i, dot, f, false);
    } else {
      SuffixMile(lower, num);
      ParseNumber(i, dot, f, true);
    }
  }

  lemma ParsesDenotes(s: string)
    requires Parse(s).Ok?
    ensures Denotes(s, Parse(s).value) && Parse(s).value <= MAX_PARSE
  {
    hide DigitsVal, Padded, Pow10, Lower;
    var lower, mile := Lower(s), EndsWith(Lower(s), "mile");
    var num := lower[..|lower| - 4];
    var i, f, at := Parts(num).0, Parts(num).1, IndexOf(num, '.');
    PaddedVal(f);
    var dot := at < |num|;
    if dot {
      assert num == num[..at] + ['.'] + num[at + 1..];
    }
    assert Number(i, dot, f) == num;
    assert lower == num + lower[|lower| - 4..];
    assert DenotesAs(s, Parse(s).value, i, dot, f);
  }

  /** Parsing accepts exactly the texts that denote an amount up to the ceiling, and returns
      the amount they denote. */
  lemma ParseExact(s: string, v: nat)
    ensures Parse(s) == Ok(v) <==> Denotes(s, v) && v <= MAX_PARSE
  {
    hide Parse, DenotesAs;
    if Parse(s) == Ok(v) {
      ParsesDenotes(s);
    }
    if Denotes(s, v) {
      var i, dot, f :| DenotesAs(s, v, i, dot, f);
      DenotesParses(s, v, i, dot, f);
    }
  }

  // ----- printing -----

  function ThreeDigits(q: nat): (s: string)
    requires q < 1000
    ensures |s| == 3
  {
    [DigitChar(q / 100), DigitChar(q / 10 % 10), DigitChar(q % 10)]
  }

  /** Six digits with leading zeros. */
  function SixDigits(n: nat): (s: string)
    requires n < MILE_PER_PLNE
    ensures |s| == DECIMALS
  {
    ThreeDigits(n / 1000) + ThreeDigits(n % 1000)
  }

  function Trimmed(f: string): string {
    if |f| > 1 && f[|f| - 1] == '0' then Trimmed(f[..|f| - 1]) else f
  }

  function FormatPlne(mile: nat): string {
    Decimal(mile / MILE_PER_PLNE) + "." + Trimmed(SixDigits(mile % MILE_PER_PLNE))
  }

  method Format(mile: nat) returns (s: string)
    ensures s == FormatPlne(mile)
  {
    var f := SixDigits(mile % MILE_PER_PLNE);
    while |f| > 1 && f[|f| - 1] == '0'
      invariant Trimmed(f) == Trimmed(SixDigits(mile % MILE_PER_PLNE))
      decreases |f|
    {
      f := f[..|f| - 1];
    }
    s := Decimal(mile / MILE_PER_PLNE) + "." + f;
  }

  lemma DigitBack(d: nat)
    requires d < 10
    ensures IsDigit(DigitChar(d)) && DigitVal(DigitChar(d)) == d
  {
  }

  lemma DigitsSnoc(s: string, d: nat)
    requires AllDigits(s) && d < 10
    ensures AllDigits(s + [DigitChar(d)]) && DigitsVal(s + [DigitChar(d)]) == 10 * DigitsVal(s) + d
  {
    DigitBack(d);
    assert (s + [DigitChar(d)])[..|s|] == s;
  }

  lemma ThreeDigitsVal(q: nat)
    requires q < 1000
    ensures AllDigits(ThreeDigits(q)) && DigitsVal(ThreeDigits(q)) == q
  {
    hide DigitsVal, DigitChar;
    var a, b, c := q / 100, q / 10 % 10, q % 10;
    NoDigitsVal();
    DigitsSnoc("", a);
    DigitsSnoc("" + [DigitChar(a)], b);
    DigitsSnoc("" + [DigitChar(a)] + [DigitChar(b)], c);
    assert ThreeDigits(q) == "" + [DigitChar(a)] + [DigitChar(b)] + [DigitChar(c)];
    assert 100 * a + 10 * b + c == q;
  }

  lemma NoDigitsVal()
    ensures DigitsVal("") == 0
  {
  }

  lemma SixDigitsVal(n: nat)
    requires n < MILE_PER_PLNE
    ensures AllDigits(SixDigits(n)) && DigitsVal(SixDigits(n)) == n
  {
    hide DigitsVal, ThreeDigits, AllDigits, Pow10;
    ThreeDigitsVal(n / 1000);
    ThreeDigitsVal(n % 1000);
    DigitsAppend(ThreeDigits(n / 1000), ThreeDigits(n % 1000));
    PowThree();
  }

  lemma PowThree()
    ensures Pow10(3) == 1000
  {
    assert Pow10(1) == 10 && Pow10(2) == 100;
  }

  /** Trailing zeros carry no value. */
  lemma {:induction false} TrimmedVal(f: string)
    requires f != "" && |f| <= DECIMALS && AllDigits(f)
    ensures var t := Trimmed(f);
            && t != "" && |t| <= DECIMALS && AllDigits(t)
            && DigitsVal(t) * Pow10(DECIMALS - |t|) == DigitsVal(f) * Pow10(DECIMALS - |f|)
    decreases |f|
  {
    hide DigitsVal, Pow10;
    if |f| > 1 && f[|f| - 1] == '0' {
      var g := f[..|f| - 1];
      TrimmedVal(g);
      assert f == g + "0";
      ZeroShifts(g);
      Regroup(DigitsVal(g), DECIMALS - |g|);
    }
  }

  lemma LowerOfPrinted(i: string, f: string)
    requires AllDigits(i) && AllDigits(f)
    ensures Lower(i + "." + f + "plne") == Number(i, true, f) + "plne"
  {
    var s := i + "." + f + "plne";
    forall k | 0 <= k < |s| ensures LowerChar(s[k]) == s[k] {
      if k < |i| {
        assert s[k] == i[k];
      } else if |i| < k < |i| + 1 + |f| {
        assert s[k] == f[k - |i| - 1];
      }
    }
    assert Lower(s) == s;
  }

  /** Parsing a printed amount returns it, for every amount up to the ceiling. */
  lemma ParseFormat(mile: nat)
    requires mile <= MAX_PARSE
    ensures Parse(FormatPlne(mile) + "plne") == Ok(mile)
  {
    hide Parse, DigitsVal, Pow10, Trimmed, SixDigits, Decimal;
    var n, r := mile / MILE_PER_PLNE, mile % MILE_PER_PLNE;
    var i, f := Decimal(n), Trimmed(SixDigits(r));
    DecimalDigits(n);
    SixDigitsVal(r);
    TrimmedVal(SixDigits(r));
    PowZero();
    LowerOfPrinted(i, f);
    DenotesParses(FormatPlne(mile) + "plne", mile, i, true, f);
  }

  lemma PowZero()
    ensures Pow10(0) == 1
  {
  }
}
