/** The values of an array: strings, whole numbers and booleans, and the list they make. */
module TomlValues {
  import opened Wrappers
  import opened Text
  import opened Toml

  const MIN_I64: int := -0x8000_0000_0000_0000
  const MAX_I64: int := 0x7FFF_FFFF_FFFF_FFFF

  datatype Value = Str(text: string) | Int(number: int) | Bool(truth: bool)

  datatype Fault =
    | TextAfterValue | LoneBackslash | UnknownEscape(c: char) | NoClosingQuote | Fractional | LooksLikeDate | NotWhole
    | NotAValue
    | MissingBracket | TextAfterArray | NestedArray | MixedKinds

  // ----- strings -----

  /** Only white space, or a comment, may follow a string. */
  predicate EndsValue(after: string) { Trim(after) == "" || Trim(after)[0] == '#' }

  /** What an escape stands for. */
  function Escape(c: char): Option<char> {
    if c == '"' || c == '\\' then Some(c)
    else if c == 'n' then Some('\n')
    else if c == 'r' then Some('\r')
    else if c == 't' then Some('\t')
    else None
  }

  /** The rest of a basic string from position i, after what was read of it. */
  function BasicFrom(text: string, i: nat, out: string): Result<Value, Fault>
    requires i <= |text|
    decreases |text| - i
  {
    if i == |text| then Err(NoClosingQuote)
    else if text[i] == '"' then
      if EndsValue(text[i + 1..]) then Ok(Str(out)) else Err(TextAfterValue)
    else if text[i] == '\\' then
      if i + 1 == |text| then Err(LoneBackslash)
      else
        match Escape(text[i + 1])
        case None => Err(UnknownEscape(text[i + 1]))
        case Some(c) => BasicFrom(text, i + 2, out + [c])
    else BasicFrom(text, i + 1, out + [text[i]])
  }

  method BasicString(text: string) returns (r: Result<Value, Fault>)
    requires text != ""
    ensures r == BasicFrom(text, 1, "")
  {
    var i, out := 1, "";
    while i < |text|
      invariant 1 <= i <= |text| && BasicFrom(text, i, out) == BasicFrom(text, 1, "")
    {
      var c := text[i];
      if c == '"' {
        var after := Trim(text[i + 1..]);
        if after != "" && after[0] != '#' {
          return Err(TextAfterValue);
        }
        return Ok(Str(out));
      } else if c == '\\' {
        if i + 1 == |text| {
          return Err(LoneBackslash);
        }
        var e := text[i + 1];
        if e == '"' {
          out := out + ['"'];
        } else if e == '\\' {
          out := out + ['\\'];
        } else if e == 'n' {
          out := out + ['\n'];
        } else if e == 'r' {
          out := out + ['\r'];
        } else if e == 't' {
          out := out + ['\t'];
        } else {
          return Err(UnknownEscape(e));
        }
        i := i + 2;
      } else {
        out := out + [c];
        i := i + 1;
      }
    }
    r := Err(NoClosingQuote);
  }

  function LiteralString(text: string): Result<Value, Fault>
    requires text != ""
  {
    var k := IndexOf(text[1..], '\'');
    if k == |text| - 1 then Err(NoClosingQuote)
    else if EndsValue(text[k + 2..]) then Ok(Str(text[1..k + 1]))
    else Err(TextAfterValue)
  }

  // ----- numbers and booleans -----

  /** The leading run without white space or a hash. */
  function Token(s: string): string {
    if s == "" || IsSpace(s[0]) || s[0] == '#' then "" else [s[0]] + Token(s[1..])
  }

  function Without(s: string, c: char): string {
    if s == "" then "" else if s[0] == c then Without(s[1..], c) else [s[0]] + Without(s[1..], c)
  }

  function CountOf(s: string, c: char): nat { if s == "" then 0 else (if s[0] == c then 1 else 0) + CountOf(s[1..], c) }

  /** A signed 64-bit number as the library reads it: a sign, then digits. */
  function ParseInt(s: string): Option<int> {
    if s != "" && s[0] == '-' then
      if s[1..] != "" && AllDigits(s[1..]) then
        var n: int := 0 - DigitsVal(s[1..]);
        if n >= MIN_I64 then Some(n) else None
      else None
    else
      match ParseNat(s, MAX_I64)
      case None => None
      case Some(n) => Some(n)
  }

  predicate StartsDigit(s: string) { s != "" && IsDigit(s[0]) }

  function Scalar(text: string): Result<Value, Fault> {
    var token := Token(text);
    if token == "true" then Ok(Bool(true))
    else if token == "false" then Ok(Bool(false))
    else if '.' in token || (('e' in token || 'E' in token) && StartsDigit(token)) then Err(Fractional)
    else if |token| >= 8 && StartsDigit(token) && (':' in token || CountOf(token, '-') >= 2) then Err(LooksLikeDate)
    else
      match ParseInt(Without(token, '_'))
      case Some(n) => Ok(Int(n))
      case None => if StartsDigit(token) || (token != "" && token[0] == '-') then Err(NotWhole) else Err(NotAValue)
  }

  // ----- the list -----

  function Item(piece: string): Result<Value, Fault>
    requires piece != ""
  {
    if piece[0] == '"' then BasicFrom(piece, 1, "")
    else if piece[0] == '\'' then LiteralString(piece)
    else Scalar(piece)
  }

  predicate SameKind(v: Value, w: Value) { v.Str? == w.Str? && v.Int? == w.Int? && v.Bool? == w.Bool? }

  /** The values of the pieces that are not blank, all of one kind. */
  function ItemsOf(pieces: seq<string>): Result<seq<Value>, Fault> {
    if pieces == [] then Ok([])
    else
      var r := ItemsOf(pieces[..|pieces| - 1]);
      var p := Trim(StripComment(pieces[|pieces| - 1]));
      if r.Err? || p == "" then r
      else
        match Item(p)
        case Err(f) => Err(f)
        case Ok(v) => if r.value != [] && !SameKind(r.value[0], v) then Err(MixedKinds) else Ok(r.value + [v])
  }

  lemma {:induction false} ItemsStuck(pieces: seq<string>, n: nat)
    requires n <= |pieces| && ItemsOf(pieces[..n]).Err?
    ensures ItemsOf(pieces) == ItemsOf(pieces[..n])
    decreases |pieces|
  {
    hide Item, StripComment, Trim;
    if n == |pieces| {
      assert pieces[..n] == pieces;
    } else {
      var front := pieces[..|pieces| - 1];
      assert front[..n] == pieces[..n];
      ItemsStuck(front, n);
    }
  }

  method ParseItems(pieces: seq<string>) returns (r: Result<seq<Value>, Fault>)
    ensures r == ItemsOf(pieces)
  {
    hide BasicFrom, LiteralString, Scalar, StripComment, Trim;
    var items: seq<Value> := [];
    for i := 0 to |pieces|
      invariant ItemsOf(pieces[..i]) == Ok(items)
    {
      assert pieces[..i + 1][..i] == pieces[..i];
      var stripped := StripCommentOf(pieces[i]);
      var piece := Trim(stripped);
      if piece == "" {
        continue;
      }
      var v: Result<Value, Fault>;
      if piece[0] == '"' {
        v := BasicString(piece);
      } else if piece[0] == '\'' {
        v := LiteralString(piece);
      } else {
        v := Scalar(piece);
      }
      if v.Err? {
        ItemsStuck(pieces, i + 1);
        return Err(v.error);
      }
      if items != [] && !SameKind(items[0], v.value) {
        ItemsStuck(pieces, i + 1);
        return Err(MixedKinds);
      }
      items := items + [v.value];
    }
    assert pieces[..|pieces|] == pieces;
    r := Ok(items);
  }

  /** What the reader of a whole array answers, given how its text was read. */
  function ArrayOf(read: ArrayRead): Result<(seq<Value>, nat), Fault> {
    match read
    case Unclosed => Err(MissingBracket)
    case TextAfter => Err(TextAfterArray)
    case Nested => Err(NestedArray)
    case Items(pieces, consumed) =>
      match ItemsOf(pieces)
      case Err(f) => Err(f)
      case Ok(values) => Ok((values, consumed))
  }

  /** The whole array reader: lines gathered, pieces parted, values read. */
  method ReadValues(lines: seq<string>, start: nat, first: string)
      returns (r: Result<(seq<Value>, nat), Fault>, ghost read: ArrayRead)
    requires start < |lines| && first != "" && first[0] == '['
    ensures ReadSpec(lines, start, first, read) && r == ArrayOf(read)
  {
    hide ItemsOf;
    var text := ReadArray(lines, start, first);
    read := text;
    match text {
      case Unclosed => r := Err(MissingBracket);
      case TextAfter => r := Err(TextAfterArray);
      case Nested => r := Err(NestedArray);
      case Items(pieces, consumed) =>
        var items := ParseItems(pieces);
        if items.Err? {
          r := Err(items.error);
        } else {
          r := Ok((items.value, consumed));
        }
    }
  }

  // ----- writing strings -----

  function EscapedChar(c: char): string {
    if c == '"' then "\\\""
    else if c == '\\' then "\\\\"
    else if c == '\n' then "\\n"
    else if c == '\r' then "\\r"
    else if c == '\t' then "\\t"
    else [c]
  }

  function Escaped(s: string): string { if s == "" then "" else Escaped(s[..|s| - 1]) + EscapedChar(s[|s| - 1]) }

  function Quoted(s: string): string { "\"" + Escaped(s) + "\"" }

  /** Items with commas and spaces between them. */
  function Listed(items: seq<string>): string {
    if items == [] then ""
    else if |items| == 1 then Quoted(items[0])
    else Listed(items[..|items| - 1]) + ", " + Quoted(items[|items| - 1])
  }

  function ArrayText(items: seq<string>): string { "[" + Listed(items) + "]" }

  const INSIDE := Quote(true, false, false)

  /** Every character of an escaped text is inside the string its quote opened. */
  lemma {:induction false} EscapedInside(s: string)
    ensures var t := "\"" + Escaped(s);
            StateAt(t, |t|) == INSIDE && forall i :: 0 < i <= |t| ==> StateAt(t, i).basic
  {
    hide StateAt;
    var t := "\"" + Escaped(s);
    if s == "" {
      assert t == "\"";
      Started(t);
      StateStep(t, 1);
    } else {
      var u, e := "\"" + Escaped(s[..|s| - 1]), EscapedChar(s[|s| - 1]);
      EscapedInside(s[..|s| - 1]);
      assert t == u + e;
      forall i | 0 < i <= |u| ensures StateAt(t, i).basic {
        StatePrefix(u, e, i);
      }
      StatePrefix(u, e, |u|);
      StateStep(t, |u| + 1);
      assert t[|u|] == e[0];
      if |e| == 2 {
        StateStep(t, |u| + 2);
        assert t[|u| + 1] == e[1];
      }
    }
  }

  /** Closed, with nothing outside strings that a scanner looks for. */
  predicate Inert(t: string) { Closed(t) && forall i :: 0 <= i < |t| && Bare(t, i) ==> t[i] !in {'#', '[', ']', ','} }

  lemma QuotedInert(s: string)
    ensures Inert(Quoted(s)) && |Quoted(s)| >= 2 && Quoted(s)[0] == '"' && Quoted(s)[|Quoted(s)| - 1] == '"'
  {
    hide StateAt;
    var u, q := "\"" + Escaped(s), Quoted(s);
    assert q == u + "\"";
    EscapedInside(s);
    StatePrefix(u, "\"", |u|);
    StateStep(q, |q|);
    forall i | 0 <= i < |q| && Bare(q, i) ensures q[i] !in {'#', '[', ']', ','} {
      if i > 0 {
        StatePrefix(u, "\"", i);
      }
    }
  }

  lemma InertJoin(a: string, b: string)
    requires Inert(a) && Inert(b)
    ensures Inert(a + b)
  {
    hide StateAt;
    StateSuffix(a, b, |b|);
    forall i | 0 <= i < |a + b| && Bare(a + b, i) ensures (a + b)[i] !in {'#', '[', ']', ','} {
      if i < |a| {
        StatePrefix(a, b, i);
        assert Bare(a, i);
      } else {
        StateSuffix(a, b, i - |a|);
        assert Bare(b, i - |a|);
      }
    }
  }

  lemma SpaceInert()
    ensures Inert(" ") && Inert("")
  {
    Started(" ");
    StateStep(" ", 1);
    Started("");
  }

  // ----- reading them back -----

  /** One character read back. */
  lemma BasicStep(t: string, i: nat, out: string, c: char)
    requires i + |EscapedChar(c)| < |t| && t[i..i + |EscapedChar(c)|] == EscapedChar(c)
    ensures BasicFrom(t, i, out) == BasicFrom(t, i + |EscapedChar(c)|, out + [c])
  {
    hide Trim;
    var e := EscapedChar(c);
    assert t[i] == e[0] && (|e| == 2 ==> t[i + 1] == e[1]);
  }

  lemma {:induction false} BasicReads(s: string, t: string, k: nat)
    requires k <= |s| && t == Quoted(s)
    ensures var i := 1 + |Escaped(s[..k])|; i <= |t| && BasicFrom(t, 1, "") == BasicFrom(t, i, s[..k])
  {
    hide EscapedChar, BasicFrom, Quoted, Escaped;
    if k == 0 {
      assert s[..0] == "";
      QuotedSize(s);
    } else {
      BasicReads(s, t, k - 1);
      EscapedStep(s, k);
      BasicStep(t, 1 + |Escaped(s[..k - 1])|, s[..k - 1], s[k - 1]);
      assert s[..k] == s[..k - 1] + [s[k - 1]];
    }
  }

  lemma QuotedSize(s: string)
    ensures |Quoted(s)| >= 2 && Escaped("") == ""
  {
  }

  /** The escape of the k-th character stands in its place. */
  lemma EscapedStep(s: string, k: nat)
    requires 0 < k <= |s|
    ensures Escaped(s[..k]) == Escaped(s[..k - 1]) + EscapedChar(s[k - 1])
    ensures var i, e := 1 + |Escaped(s[..k - 1])|, EscapedChar(s[k - 1]);
            i + |e| < |Quoted(s)| && Quoted(s)[i..i + |e|] == e
  {
    hide EscapedChar;
    assert s[..k][..k - 1] == s[..k - 1] && s[..k][k - 1] == s[k - 1];
    EscapedPrefix(s, k);
    var front, e := Escaped(s[..k - 1]), EscapedChar(s[k - 1]);
    var rest :| Escaped(s) == Escaped(s[..k]) + rest;
    assert Quoted(s) == ("\"" + front) + e + (rest + "\"");
  }

  lemma {:induction false} EscapedPrefix(s: string, k: nat)
    requires k <= |s|
    ensures exists rest :: Escaped(s) == Escaped(s[..k]) + rest
    decreases |s|
  {
    hide EscapedChar;
    if k == |s| {
      assert s[..k] == s && Escaped(s) == Escaped(s[..k]) + "";
    } else {
      var front := s[..|s| - 1];
      EscapedPrefix(front, k);
      assert front[..k] == s[..k];
      var rest :| Escaped(front) == Escaped(front[..k]) + rest;
      assert Escaped(s) == Escaped(s[..k]) + (rest + EscapedChar(s[|s| - 1]));
    }
  }

  /** A quoted string reads back as itself. */
  lemma QuotedReads(s: string)
    ensures BasicFrom(Quoted(s), 1, "") == Ok(Str(s))
  {
    hide Escaped;
    var t := Quoted(s);
    BasicReads(s, t, |s|);
    assert s[..|s|] == s;
    var i := |t| - 1;
    assert t[i] == '"' && t[i + 1..] == "";
    assert Trim("") == "";
  }

  // ----- a whole list -----

  lemma {:induction false} NoComment(t: string, n: nat)
    requires n <= |t| && forall i :: 0 <= i < |t| && Bare(t, i) ==> t[i] != '#'
    ensures CommentAt(t, n) == |t|
    decreases |t| - n
  {
    hide Bare;
    if n < |t| {
      NoComment(t, n + 1);
    }
  }

  /** The pieces of a list: the first item, and a space and an item for each other. */
  function Pieces(items: seq<string>): seq<string>
    requires items != []
  {
    if |items| == 1 then [Quoted(items[0])] else Pieces(items[..|items| - 1]) + [" " + Quoted(items[|items| - 1])]
  }

  lemma SplitOne(p: string)
    requires CommaFree(p)
    ensures SplitIn(p, |p|) == ([], p)
  {
    SplitNone(p, |p|);
    assert p[..|p|] == p;
  }

  lemma {:induction false} SplitNone(p: string, n: nat)
    requires CommaFree(p) && n <= |p|
    ensures SplitIn(p, n) == ([], p[..n])
  {
    hide Bare;
    if n > 0 {
      SplitNone(p, n - 1);
      assert p[..n] == p[..n - 1] + [p[n - 1]];
    }
  }

  /** A comma after a closed text, and then a piece without one. */
  lemma {:induction false} SplitComma(a: string, p: string, n: nat)
    requires Closed(a) && CommaFree(p) && n <= |p|
    ensures SplitIn(a + "," + p, |a| + 1 + n) == (SplitTop(a), p[..n])
  {
    hide StateAt, CommaFree;
    var t := a + "," + p;
    if n == 0 {
      SplitPrefix(a, "," + p, |a|);
      assert t == a + ("," + p) && t[|a|] == ',';
      StatePrefix(a, "," + p, |a|);
      ClosedIs(a);
    } else {
      SplitComma(a, p, n - 1);
      CommaCloses(a);
      StateSuffix(a + ",", p, n - 1);
      assert t[|a| + n] == p[n - 1];
      assert Bare(t, |a| + n) == Bare(p, n - 1);
      if p[n - 1] == ',' {
        FreeAt(p, n - 1);
      }
      assert p[..n] == p[..n - 1] + [p[n - 1]];
    }
  }

  lemma FreeAt(p: string, i: nat)
    requires CommaFree(p) && i < |p| && p[i] == ','
    ensures !Bare(p, i)
  {
  }

  lemma CommaCloses(a: string)
    requires Closed(a)
    ensures Closed(a + ",")
  {
    hide StateAt;
    StatePrefix(a, ",", |a|);
    StateSound(a, |a|);
    StateStep(a + ",", |a| + 1);
  }

  lemma {:induction false} SplitPrefix(s: string, t: string, n: nat)
    requires n <= |s|
    ensures SplitIn(s + t, n) == SplitIn(s, n)
  {
    hide StateAt;
    if n > 0 {
      SplitPrefix(s, t, n - 1);
      StatePrefix(s, t, n - 1);
    }
  }

  lemma InertFree(p: string)
    requires Inert(p)
    ensures CommaFree(p)
  {
  }

  /** The list is closed, has no comment or bracket outside strings, and parts into its items. */
  lemma {:induction false} ListedSplits(items: seq<string>)
    requires items != []
    ensures Plain(Listed(items)) && SplitTop(Listed(items)) == Pieces(items)
  {
    hide StateAt, Quoted, SplitIn, Inert, Plain;
    var last := Quoted(items[|items| - 1]);
    QuotedInert(items[|items| - 1]);
    if |items| == 1 {
      InertFree(last);
      SplitOne(last);
      InertPlain(last);
    } else {
      var front := Listed(items[..|items| - 1]);
      ListedSplits(items[..|items| - 1]);
      SpaceInert();
      InertJoin(" ", last);
      var p := " " + last;
      InertFree(p);
      assert Listed(items) == front + "," + p;
      PlainJoin(front, p);
      SplitComma(front, p, |p|);
      assert p[..|p|] == p;
    }
  }

  /** Closed, and no comment or bracket outside strings. */
  predicate Plain(t: string) { Closed(t) && forall i :: 0 <= i < |t| && Bare(t, i) ==> t[i] !in {'#', '[', ']'} }

  lemma InertPlain(t: string)
    requires Inert(t)
    ensures Plain(t)
  {
  }

  lemma PlainJoin(a: string, b: string)
    requires Plain(a) && Inert(b)
    ensures Plain(a) && Closed(a) && Plain(a + "," + b)
  {
    hide StateAt;
    CommaCloses(a);
    var c := a + ",";
    StateSuffix(c, b, |b|);
    forall i | 0 <= i < |c + b| && Bare(c + b, i) ensures (c + b)[i] !in {'#', '[', ']'} {
      if i < |c| {
        StatePrefix(c, b, i);
        StatePrefix(a, ",", i);
        if i < |a| {
          assert Bare(a, i);
        }
      } else {
        StateSuffix(c, b, i - |c|);
        assert Bare(b, i - |c|);
      }
    }
  }

  function Strings(items: seq<string>): (r: seq<Value>)
    ensures |r| == |items|
  {
    seq(|items|, i requires 0 <= i < |items| => Str(items[i]))
  }

  lemma PieceTrims(s: string, lead: string)
    requires lead == "" || lead == " "
    ensures Trim(StripComment(lead + Quoted(s))) == Quoted(s)
  {
    hide Quoted, Escaped, StateAt;
    var q := Quoted(s);
    QuotedInert(s);
    SpaceInert();
    InertJoin(lead, q);
    var t := lead + q;
    NoComment(t, 0);
    assert StripComment(t) == t;
    assert t[|t| - 1] == '"' && TrimEnd(t) == t && TrimStart(q) == q;
    if lead == " " {
      assert t[0] == ' ' && t[1..] == q && TrimStart(t) == TrimStart(q);
    } else {
      assert t == q;
    }
  }

  lemma {:induction false} PiecesRead(items: seq<string>)
    requires items != []
    ensures ItemsOf(Pieces(items)) == Ok(Strings(items))
  {
    hide Quoted, StripComment, Trim, BasicFrom;
    var n := |items| - 1;
    QuotedInert(items[n]);
    QuotedReads(items[n]);
    PieceTrims(items[n], if n == 0 then "" else " ");
    if n == 0 {
      var none: seq<string> := [];
      var ps := [Quoted(items[0])];
      assert ps[..0] == none && ItemsOf(none) == Ok([]);
      assert "" + Quoted(items[0]) == Quoted(items[0]);
      assert Pieces(items) == ps && ItemsOf(ps) == Ok([] + [Str(items[0])]);
      var one := [Str(items[0])];
      assert Strings(items) == one && [] + one == one;
    } else {
      var front := Pieces(items[..n]);
      PiecesRead(items[..n]);
      var ps := front + [" " + Quoted(items[n])];
      assert ps[..|ps| - 1] == front && ps[|ps| - 1] == " " + Quoted(items[n]);
      assert Strings(items) == Strings(items[..n]) + [Str(items[n])];
      assert Strings(items[..n])[0] == Str(items[0]);
    }
  }

  lemma NoItems()
    ensures ItemsOf(SplitTop("")) == Ok([]) && Plain("")
  {
    hide StateAt, Item;
    Started("");
    NoPieces();
    NoText();
    var none: seq<string> := [];
    assert [""][..0] == none && ItemsOf(none) == Ok([]);
  }

  lemma NoPieces()
    ensures SplitTop("") == [""]
  {
    assert SplitIn("", 0) == ([], "");
  }

  lemma NoText()
    ensures Trim(StripComment("")) == ""
  {
  }

  lemma CloseAlone()
    ensures Brackets("]") == [(0, ']')]
  {
    assert BracketsIn("]", 0) == [];
    assert Bare("]", 0);
  }

  /** The brackets of the text of a list are its first and its last character, and it has no
      comment. */
  lemma ArrayBrackets(inner: string)
    requires Plain(inner)
    ensures var t := "[" + inner + "]";
            Brackets(t) == [(0, '['), (|inner| + 1, ']')] && TrimEnd(StripComment(t)) == t
  {
    hide StateAt, BracketsIn;
    var t, rest := "[" + inner + "]", inner + "]";
    assert t == "[" + rest;
    Started("[");
    StateStep("[", 1);
    OpenAlone();
    CloseAlone();
    PlainBrackets(inner, |inner|);
    BracketsSuffix(inner, "]", 1);
    BracketsSuffix("[", rest, |rest|);
    assert Shifted([(0, ']')], |inner|) == [(|inner|, ']')];
    assert Shifted([(|inner|, ']')], 1) == [(|inner| + 1, ']')];
    forall i | 0 <= i < |t| && Bare(t, i) ensures t[i] != '#' {
      if 0 < i <= |inner| {
        StateSuffix("[", rest, i - 1);
        StatePrefix(inner, "]", i - 1);
        assert t[i] == inner[i - 1] && Bare(inner, i - 1);
      }
    }
    NoComment(t, 0);
    assert StripComment(t) == t;
    assert t[|t| - 1] == ']';
  }

  lemma {:induction false} PlainBrackets(t: string, n: nat)
    requires n <= |t| && Plain(t)
    ensures BracketsIn(t, n) == []
  {
    hide Bare;
    if n > 0 {
      PlainBrackets(t, n - 1);
    }
  }

  lemma TwoBalance(bs: seq<(nat, char)>)
    requires |bs| == 2 && bs[0].1 == '[' && bs[1].1 == ']'
    ensures Balanced(bs)
  {
    assert bs[..1][..0] == [] && bs[..1][0] == bs[0];
    assert Opens(bs[..1]) == 1;
  }

  /** However the strings look, what they hold of brackets, commas, hashes, quotes and line ends
      included: a list of them, written on one line, is read back as it was. */
  lemma ArrayReadsBack(lines: seq<string>, start: nat, items: seq<string>, read: ArrayRead)
    requires start < |lines| && ReadSpec(lines, start, ArrayText(items), read)
    ensures ArrayOf(read) == Ok((Strings(items), 1))
  {
    hide StateAt, Brackets, TrimEnd, StripComment, Plain, SplitTop, ItemsOf, Balanced, Opens, Quoted;
    var t, inner := ArrayText(items), Listed(items);
    if items == [] {
      NoItems();
      assert Strings(items) == [];
    } else {
      ListedSplits(items);
      PiecesRead(items);
    }
    ArrayBrackets(inner);
    var g := Gather(lines, start, t, 1);
    assert g == Gathered(t, [(0, '['), (|inner| + 1, ']')]);
    TwoBalance(g.brackets);
    assert read != Unclosed;
    var k: nat, close: nat :| Takes(lines, start, t, k) && Closes(Gather(lines, start, t, k), close)
      && Answer(Gather(lines, start, t, k), k, close, read);
    assert k == 1;
    assert close == |inner| + 1;
    assert t[close + 1..] == "" && t[1..close] == inner;
    assert Trim("") == "";
    assert !OpensWithin(g, close);
  }
}
