/** The nonce journal: one line per signed announcement, and the rule that keeps a nonce from
    being signed for two different messages. */
module Journal {
  import opened Wrappers
  import opened Text
  import opened SecHex

  const MAX_U64: nat := 0xFFFF_FFFF_FFFF_FFFF

  datatype Entry = Entry(time: nat, nonce: nat, txid: seq<Byte>, payloadHash: seq<Byte>, msgHash: Option<seq<Byte>>)

  predicate Sized(e: Entry) {
    && e.time <= MAX_U64 && e.nonce <= MAX_U64 && |e.txid| == |e.payloadHash| == 32
    && (e.msgHash.Some? ==> |e.msgHash.value| == 32)
  }

  // ----- words -----

  predicate IsWord(w: string) { w != "" && forall i :: 0 <= i < |w| ==> !IsSpace(w[i]) }

  /** Length of the leading run without spaces. */
  function WordLen(s: string): (n: nat)
    ensures n <= |s| && (n < |s| ==> IsSpace(s[n])) && forall i :: 0 <= i < n ==> !IsSpace(s[i])
  {
    if s == "" || IsSpace(s[0]) then 0 else 1 + WordLen(s[1..])
  }

  function Words(s: string): seq<string>
    decreases |s|
  {
    if s == "" then []
    else if IsSpace(s[0]) then Words(s[1..])
    else [s[..WordLen(s)]] + Words(s[WordLen(s)..])
  }

  lemma WordLenAt(w: string, rest: string)
    requires IsWord(w) && (rest == "" || IsSpace(rest[0]))
    ensures WordLen(w + rest) == |w|
  {
    var s := w + rest;
    assert forall i :: 0 <= i < |w| ==> s[i] == w[i];
    assert rest != "" ==> s[|w|] == rest[0];
  }

  lemma WordsCons(w: string, rest: string)
    requires IsWord(w)
    ensures Words(w + " " + rest) == [w] + Words(rest)
  {
    var tail := " " + rest;
    WordLenAt(w, tail);
    var s := w + tail;
    assert s == w + " " + rest;
    assert s[0] == w[0] && s[..|w|] == w && s[|w|..] == tail;
    assert tail[1..] == rest;
  }

  lemma WordsOne(w: string)
    requires IsWord(w)
    ensures Words(w) == [w]
  {
    assert w + "" == w;
    WordLenAt(w, "");
    assert w[..|w|] == w && w[|w|..] == "";
  }

  lemma {:induction false} BlankWords(s: string)
    ensures IsBlank(s) <==> Words(s) == []
    decreases |s|
  {
    if s != "" && IsSpace(s[0]) {
      BlankWords(s[1..]);
      assert IsBlank(s) <==> IsBlank(s[1..]);
    }
  }

  lemma {:induction false} WordsAppend(s: string, t: string)
    requires t != "" && !IsBlank(t)
    ensures Words(s + t) != []
  {
    BlankWords(s + t);
    var i :| 0 <= i < |t| && !IsSpace(t[i]);
    assert (s + t)[|s| + i] == t[i];
  }

  // ----- one line -----

  /** key=value, parted at the first equals sign. */
  function KeyValue(field: string): Option<(string, string)> {
    var i := IndexOf(field, '=');
    if i == |field| then None else Some((field[..i], field[i + 1..]))
  }

  datatype Partial = Partial(
    time: Option<nat>, nonce: Option<nat>, txid: Option<seq<Byte>>, payload: Option<seq<Byte>>, msg: Option<seq<Byte>>)

  const NOTHING := Partial(None, None, None, None, None)

  function Hash32(v: string): Option<seq<Byte>> {
    match FromHex(v) case None => None case Some(b) => if |b| == 32 then Some(b) else None
  }

  /** One field filled in; a repeated field overrides, an unknown one is an error. */
  function Fill(p: Partial, field: string): Option<Partial> {
    match KeyValue(field)
    case None => None
    case Some((k, v)) =>
      var n, h := ParseNat(v, MAX_U64), Hash32(v);
      if k == "time" then if n.None? then None else Some(p.(time := n))
      else if k == "nonce" then if n.None? then None else Some(p.(nonce := n))
      else if k == "txid" then if h.None? then None else Some(p.(txid := h))
      else if k == "payload_b3" then if h.None? then None else Some(p.(payload := h))
      else if k == "msg_b3" then if h.None? then None else Some(p.(msg := h))
      else None
  }

  function FillAll(p: Partial, fields: seq<string>): Option<Partial>
    decreases |fields|
  {
    if fields == [] then Some(p)
    else
      match Fill(p, fields[0])
      case None => None
      case Some(q) => FillAll(q, fields[1..])
  }

  function Complete(p: Partial): Option<Entry> {
    if p.time.Some? && p.nonce.Some? && p.txid.Some? && p.payload.Some? then
      Some(Entry(p.time.value, p.nonce.value, p.txid.value, p.payload.value, p.msg))
    else None
  }

  function ParseLine(line: string): Option<Entry> {
    match FillAll(NOTHING, Words(line))
    case None => None
    case Some(p) => Complete(p)
  }

  /** The line parser as it runs: options filled in a loop. */
  method ParseEntry(line: string) returns (r: Option<Entry>)
    ensures r == ParseLine(line)
  {
    hide Fill, Words;
    var p, fields := NOTHING, Words(line);
    for i := 0 to |fields|
      invariant FillAll(p, fields[i..]) == FillAll(NOTHING, fields)
    {
      assert fields[i..][1..] == fields[i + 1..];
      var q := Fill(p, fields[i]);
      if q.None? {
        return None;
      }
      p := q.value;
    }
    assert FillAll(p, []) == Some(p);
    r := Complete(p);
  }

  function Field(k: string, v: string): string { k + "=" + v }

  /** The line of an entry, without its newline. */
  function Line(e: Entry): string {
    Field("time", Decimal(e.time)) + " " + (Field("nonce", Decimal(e.nonce)) + " " + (Field("txid", HexOf(e.txid)) + " "
    + if e.msgHash.None? then Field("payload_b3", HexOf(e.payloadHash))
      else Field("payload_b3", HexOf(e.payloadHash)) + " " + Field("msg_b3", HexOf(e.msgHash.value))))
  }

  function Render(e: Entry): string { Line(e) + "\n" }

  lemma PlainIsWord(k: string, v: string)
    requires IsWord(k) && '=' !in k && (forall i :: 0 <= i < |v| ==> !IsSpace(v[i]))
    ensures IsWord(Field(k, v)) && KeyValue(Field(k, v)) == Some((k, v))
  {
    var f := Field(k, v);
    IndexAfter(k, '=', v);
    assert f == k + ['='] + v && f[..|k|] == k && f[|k| + 1..] == v;
  }

  lemma KeysPlain()
    ensures IsWord("time") && IsWord("nonce") && IsWord("txid") && IsWord("payload_b3") && IsWord("msg_b3")
    ensures '=' !in "time" && '=' !in "nonce" && '=' !in "txid" && '=' !in "payload_b3" && '=' !in "msg_b3"
  {
  }

  lemma HexNoSpace(b: seq<Byte>)
    ensures forall i :: 0 <= i < |HexOf(b)| ==> !IsSpace(HexOf(b)[i])
  {
    HexOfShape(b);
    hide HexOf;
  }

  lemma DecimalNoSpace(n: nat)
    ensures forall i :: 0 <= i < |Decimal(n)| ==> !IsSpace(Decimal(n)[i])
  {
    DecimalDigits(n);
    hide Decimal, DigitsVal;
  }

  function LineWords(e: Entry): seq<string> {
    [Field("time", Decimal(e.time)), Field("nonce", Decimal(e.nonce)), Field("txid", HexOf(e.txid)),
     Field("payload_b3", HexOf(e.payloadHash))]
    + if e.msgHash.None? then [] else [Field("msg_b3", HexOf(e.msgHash.value))]
  }

  lemma FieldWords(e: Entry)
    ensures forall w :: w in LineWords(e) ==> IsWord(w)
  {
    hide HexOf, Decimal, IsSpace, Field;
    KeysPlain();
    DecimalNoSpace(e.time);
    DecimalNoSpace(e.nonce);
    HexNoSpace(e.txid);
    HexNoSpace(e.payloadHash);
    PlainIsWord("time", Decimal(e.time));
    PlainIsWord("nonce", Decimal(e.nonce));
    PlainIsWord("txid", HexOf(e.txid));
    PlainIsWord("payload_b3", HexOf(e.payloadHash));
    if e.msgHash.Some? {
      HexNoSpace(e.msgHash.value);
      PlainIsWord("msg_b3", HexOf(e.msgHash.value));
    }
  }

  lemma WordsOfLine(e: Entry)
    ensures Words(Line(e)) == LineWords(e)
  {
    hide Words, HexOf, Decimal, Field, IsWord;
    FieldWords(e);
    var a, b, c, d := Field("time", Decimal(e.time)), Field("nonce", Decimal(e.nonce)), Field("txid", HexOf(e.txid)),
      Field("payload_b3", HexOf(e.payloadHash));
    assert a in LineWords(e) && b in LineWords(e) && c in LineWords(e) && d in LineWords(e);
    var last := if e.msgHash.None? then d else d + " " + Field("msg_b3", HexOf(e.msgHash.value));
    WordsCons(a, b + " " + (c + " " + last));
    WordsCons(b, c + " " + last);
    WordsCons(c, last);
    if e.msgHash.None? {
      WordsOne(d);
    } else {
      var m := Field("msg_b3", HexOf(e.msgHash.value));
      assert m in LineWords(e);
      WordsCons(d, m);
      WordsOne(m);
    }
  }

  lemma HashBack(b: seq<Byte>)
    requires |b| == 32
    ensures Hash32(HexOf(b)) == Some(b)
  {
    DecodeEncode(b);
    hide HexOf, Bytes;
  }

  lemma FillField(p: Partial, k: string, v: string)
    requires IsWord(k) && '=' !in k && (forall i :: 0 <= i < |v| ==> !IsSpace(v[i]))
    ensures var n, h := ParseNat(v, MAX_U64), Hash32(v);
            && (k == "time" && n.Some? ==> Fill(p, Field(k, v)) == Some(p.(time := n)))
            && (k == "nonce" && n.Some? ==> Fill(p, Field(k, v)) == Some(p.(nonce := n)))
            && (k == "txid" && h.Some? ==> Fill(p, Field(k, v)) == Some(p.(txid := h)))
            && (k == "payload_b3" && h.Some? ==> Fill(p, Field(k, v)) == Some(p.(payload := h)))
            && (k == "msg_b3" && h.Some? ==> Fill(p, Field(k, v)) == Some(p.(msg := h)))
  {
    hide ParseNat, Hash32, KeyValue, Field;
    PlainIsWord(k, v);
    KeyLengths();
  }

  lemma KeyLengths()
    ensures |"time"| == 4 && |"nonce"| == 5 && |"txid"| == 4 && |"payload_b3"| == 10 && |"msg_b3"| == 6
            && "time" != "txid"
  {
    assert "time"[1] != "txid"[1];
  }

  /** What the fields of a line leave: its own values, and an older message only where it has
      none. */
  function Overlaid(p: Partial, e: Entry): Partial {
    Partial(Some(e.time), Some(e.nonce), Some(e.txid), Some(e.payloadHash),
            if e.msgHash.Some? then e.msgHash else p.msg)
  }

  /** Filling in a written line overrides whatever was there. */
  lemma FillLine(p0: Partial, e: Entry)
    requires Sized(e)
    ensures FillAll(p0, LineWords(e)) == Some(Overlaid(p0, e))
  {
    hide Words, Line, Fill, HexOf, Decimal, Field, IsWord, IsSpace, ParseNat, Hash32;
    KeysPlain();
    ParseDecimal(e.time, MAX_U64);
    ParseDecimal(e.nonce, MAX_U64);
    HashBack(e.txid);
    HashBack(e.payloadHash);
    DecimalNoSpace(e.time);
    DecimalNoSpace(e.nonce);
    HexNoSpace(e.txid);
    HexNoSpace(e.payloadHash);
    var p1 := p0.(time := Some(e.time));
    var p2 := p1.(nonce := Some(e.nonce));
    var p3 := p2.(txid := Some(e.txid));
    var p4 := p3.(payload := Some(e.payloadHash));
    FillField(p0, "time", Decimal(e.time));
    FillField(p1, "nonce", Decimal(e.nonce));
    FillField(p2, "txid", HexOf(e.txid));
    FillField(p3, "payload_b3", HexOf(e.payloadHash));
    var ws := LineWords(e);
    if e.msgHash.Some? {
      HashBack(e.msgHash.value);
      HexNoSpace(e.msgHash.value);
      FillField(p4, "msg_b3", HexOf(e.msgHash.value));
      FillFive(p0, ws, p1, p2, p3, p4, p4.(msg := e.msgHash));
    } else {
      FillFour(p0, ws, p1, p2, p3, p4);
    }
  }

  /** Reading a written line gives the entry back. */
  lemma ParseLineOf(e: Entry)
    requires Sized(e)
    ensures ParseLine(Line(e)) == Some(e)
  {
    hide Words, Line, FillAll, LineWords;
    WordsOfLine(e);
    FillLine(NOTHING, e);
  }

  lemma FillFour(p0: Partial, ws: seq<string>, p1: Partial, p2: Partial, p3: Partial, p4: Partial)
    requires |ws| >= 4 && Fill(p0, ws[0]) == Some(p1) && Fill(p1, ws[1]) == Some(p2) && Fill(p2, ws[2]) == Some(p3)
    requires Fill(p3, ws[3]) == Some(p4)
    ensures FillAll(p0, ws) == FillAll(p4, ws[4..])
    ensures |ws| == 4 ==> FillAll(p0, ws) == Some(p4)
  {
    hide Fill;
    assert ws[1..][1..] == ws[2..] && ws[2..][1..] == ws[3..] && ws[3..][1..] == ws[4..];
    assert FillAll(p0, ws) == FillAll(p1, ws[1..]);
    assert FillAll(p1, ws[1..]) == FillAll(p2, ws[2..]);
    assert FillAll(p2, ws[2..]) == FillAll(p3, ws[3..]);
    assert FillAll(p3, ws[3..]) == FillAll(p4, ws[4..]);
  }

  lemma FillFive(p0: Partial, ws: seq<string>, p1: Partial, p2: Partial, p3: Partial, p4: Partial, p5: Partial)
    requires |ws| == 5 && Fill(p0, ws[0]) == Some(p1) && Fill(p1, ws[1]) == Some(p2) && Fill(p2, ws[2]) == Some(p3)
    requires Fill(p3, ws[3]) == Some(p4) && Fill(p4, ws[4]) == Some(p5)
    ensures FillAll(p0, ws) == Some(p5)
  {
    hide Fill;
    FillFour(p0, ws, p1, p2, p3, p4);
    assert ws[4..][1..] == [] && ws[4..][0] == ws[4];
  }

  // ----- the file -----

  /** The entries of the lines that are not blank; None when one does not parse. */
  function ReadPieces(ps: seq<string>): Option<seq<Entry>> {
    if ps == [] then Some([])
    else
      var r := ReadPieces(ps[..|ps| - 1]);
      var line := ps[|ps| - 1];
      if r.None? || IsBlank(line) then r
      else
        match ParseLine(line)
        case None => None
        case Some(e) => Some(r.value + [e])
  }

  function Read(text: string): Option<seq<Entry>> { ReadPieces(Split(text, '\n')) }

  /** What follows the last newline. */
  function LastPiece(text: string): string { Split(text, '\n')[|Split(text, '\n')| - 1] }

  lemma {:induction false} SplitLast(s: string, t: string)
    ensures var ps := Split(s, '\n'); Split(s + t, '\n') == ps[..|ps| - 1] + Split(ps[|ps| - 1] + t, '\n')
    decreases |s|
  {
    hide Split, IndexOf;
    var i := IndexOf(s, '\n');
    if i == |s| {
      SplitWhole(s, '\n');
    } else {
      var a, b := s[..i], s[i + 1..];
      SplitLast(b, t);
      assert s == a + ['\n'] + b && s + t == a + ['\n'] + (b + t);
      SplitAt(a, '\n', b);
      SplitAt(a, '\n', b + t);
      LastOfCons(a, Split(b, '\n'));
    }
  }

  lemma LastOfCons(a: string, qs: seq<string>)
    requires qs != []
    ensures var ps := [a] + qs; ps[..|ps| - 1] == [a] + qs[..|qs| - 1] && ps[|ps| - 1] == qs[|qs| - 1]
  {
  }

  lemma LineHasNoNewline(e: Entry)
    ensures '\n' !in Line(e) && !IsBlank(Line(e)) && Line(e) != ""
  {
    hide Words, HexOf, Decimal, IsWord;
    WordsOfLine(e);
    BlankWords(Line(e));
    FieldWords(e);
    LineChars(e);
  }

  lemma LineChars(e: Entry)
    ensures '\n' !in Line(e)
  {
    hide HexOf, Decimal;
    DecimalNoSpace(e.time);
    DecimalNoSpace(e.nonce);
    HexNoSpace(e.txid);
    HexNoSpace(e.payloadHash);
    if e.msgHash.Some? {
      HexNoSpace(e.msgHash.value);
    }
    assert IsSpace('\n');
  }

  lemma {:induction false} ReadAppendBlank(ps: seq<string>, s: string)
    requires IsBlank(s)
    ensures ReadPieces(ps + [s]) == ReadPieces(ps)
  {
    hide ParseLine;
    assert (ps + [s])[..|ps|] == ps;
  }

  lemma ReadAppendLine(ps: seq<string>, line: string)
    requires !IsBlank(line)
    ensures ReadPieces(ps + [line]) ==
            if ReadPieces(ps).None? || ParseLine(line).None? then None
            else Some(ReadPieces(ps).value + [ParseLine(line).value])
  {
    hide ParseLine;
    assert (ps + [line])[..|ps|] == ps;
  }

  /** The lines after an entry has been appended: its text joins what followed the last
      newline. */
  lemma PiecesAfter(text: string, e: Entry)
    ensures var ps := Split(text, '\n');
            Split(text + Render(e), '\n') == ps[..|ps| - 1] + [LastPiece(text) + Line(e)] + [""]
  {
    hide Line, Split, LastPiece;
    SplitLast(text, Render(e));
    LastIs(text);
    PiecesOfLast(LastPiece(text), e);
  }

  lemma LastIs(text: string)
    ensures var ps := Split(text, '\n'); LastPiece(text) == ps[|ps| - 1] && '\n' !in LastPiece(text)
  {
    hide Split;
    PiecesClean(text, '\n');
  }

  lemma PiecesOfLast(last: string, e: Entry)
    requires '\n' !in last
    ensures Split(last + Render(e), '\n') == [last + Line(e)] + [""]
  {
    hide Line, Split;
    LineHasNoNewline(e);
    assert last + Render(e) == (last + Line(e)) + ['\n'] + "";
    SplitAt(last + Line(e), '\n', "");
    SplitWhole("", '\n');
  }

  /** Parsing skips leading blanks. */
  lemma {:induction false} WordsAfterBlank(s: string, t: string)
    requires IsBlank(s)
    ensures Words(s + t) == Words(t)
    decreases |s|
  {
    if s == "" {
      assert s + t == t;
    } else {
      WordsAfterBlank(s[1..], t);
      assert (s + t)[1..] == s[1..] + t;
    }
  }

  lemma JoinedBlank(last: string, e: Entry)
    requires IsBlank(last)
    ensures ParseLine(last + Line(e)) == ParseLine(Line(e)) && !IsBlank(last + Line(e))
  {
    hide Words, Line, FillAll;
    WordsAfterBlank(last, Line(e));
    LineHasNoNewline(e);
    WordsAppend(last, Line(e));
    BlankWords(last + Line(e));
  }

  /** Appending an entry adds it to what is read, exactly when nothing but blanks follows the
      last newline. */
  lemma AppendReads(text: string, e: Entry)
    requires Read(text).Some? && Sized(e)
    ensures Read(text + Render(e)) == Some(Read(text).value + [e]) <==> IsBlank(LastPiece(text))
  {
    hide Split, Line, ParseLine, ReadPieces, IsBlank;
    var ps, last := Split(text, '\n'), LastPiece(text);
    var front, joined := ps[..|ps| - 1], LastPiece(text) + Line(e);
    assert ps == front + [last];
    PiecesAfter(text, e);
    EmptyIsBlank();
    ReadAppendBlank(front + [joined], "");
    if IsBlank(last) {
      ReadAppendBlank(front, last);
      JoinedBlank(last, e);
      ReadAppendLine(front, joined);
      ParseLineOf(e);
    } else {
      ReadAppendLine(front, last);
      JoinedNotBlank(last, Line(e));
      ReadAppendLine(front, joined);
      var r := Read(text + Render(e));
      assert r.Some? ==> |r.value| == |Read(text).value| == |ReadPieces(front).value| + 1;
    }
  }

  lemma EmptyIsBlank()
    ensures IsBlank("")
  {
  }

  lemma JoinedNotBlank(s: string, t: string)
    requires !IsBlank(s)
    ensures !IsBlank(s + t)
  {
    var i :| 0 <= i < |s| && !IsSpace(s[i]);
    assert (s + t)[i] == s[i];
  }

  lemma BlankAfterAppend(text: string, e: Entry)
    ensures IsBlank(LastPiece(text + Render(e)))
  {
    hide Split, Line;
    PiecesAfter(text, e);
  }

  // ----- an unfinished last line -----

  predicate EndsSpace(s: string) { s != "" && IsSpace(s[|s| - 1]) }

  /** After white space the words are those of both parts. */
  lemma {:induction false} WordsApart(s: string, t: string)
    requires EndsSpace(s)
    ensures Words(s + t) == Words(s) + Words(t)
    decreases |s|
  {
    if IsSpace(s[0]) {
      assert (s + t)[1..] == s[1..] + t;
      if |s| == 1 {
        assert s[1..] == "" && s[1..] + t == t;
      } else {
        WordsApart(s[1..], t);
      }
    } else {
      var n := WordLen(s);
      var w, rest := s[..n], s[n..];
      assert n < |s| && s == w + rest && s + t == w + (rest + t);
      WordLenAt(w, rest + t);
      assert (s + t)[..n] == w && (s + t)[n..] == rest + t && (s + t)[0] == s[0];
      WordsApart(rest, t);
    }
  }

  lemma WordsHead(w: string, rest: string)
    requires IsWord(w) && (rest == "" || IsSpace(rest[0]))
    ensures Words(w + rest) == [w] + Words(rest)
  {
    WordLenAt(w, rest);
    var s := w + rest;
    assert s[0] == w[0] && s[..|w|] == w && s[|w|..] == rest;
  }

  lemma WordsSkip(c: char, rest: string)
    requires IsSpace(c)
    ensures Words([c] + rest) == Words(rest)
  {
    assert ([c] + rest)[1..] == rest;
  }

  /** Without it the last word runs into the first of what follows. */
  lemma {:induction false} WordsGlue(s: string, w: string, t: string)
    requires s != "" && !EndsSpace(s) && IsWord(w) && (t == "" || IsSpace(t[0]))
    ensures var a := Words(s); a != [] && Words(s + (w + t)) == a[..|a| - 1] + [a[|a| - 1] + w] + Words(t)
    decreases |s|
  {
    hide Words, WordLen, IsSpace;
    var u := s + (w + t);
    if IsSpace(s[0]) {
      WordsGlue(s[1..], w, t);
      assert u == [s[0]] + (s[1..] + (w + t)) && s == [s[0]] + s[1..];
      WordsSkip(s[0], s[1..]);
      WordsSkip(s[0], s[1..] + (w + t));
    } else {
      var n := WordLen(s);
      var v, rest := s[..n], s[n..];
      assert s == v + rest;
      FirstWord(s);
      WordsHead(v, rest);
      if rest == "" {
        assert s == v && u == (s + w) + t && IsWord(s + w);
        WordsHead(s + w, t);
        NoWords();
      } else {
        assert u == v + (rest + (w + t)) && (rest + (w + t))[0] == rest[0];
        WordsHead(v, rest + (w + t));
        assert rest[|rest| - 1] == s[|s| - 1];
        WordsGlue(rest, w, t);
        GlueCons(v, Words(rest), w, Words(t));
      }
    }
  }

  lemma NoWords()
    ensures Words("") == []
  {
  }

  lemma FirstWord(s: string)
    requires s != "" && !IsSpace(s[0])
    ensures IsWord(s[..WordLen(s)]) && (WordLen(s) < |s| ==> IsSpace(s[WordLen(s)]))
  {
  }

  lemma GlueCons(v: string, b: seq<string>, w: string, c: seq<string>)
    requires b != []
    ensures var a := [v] + b; [v] + (b[..|b| - 1] + [b[|b| - 1] + w] + c) == a[..|a| - 1] + [a[|a| - 1] + w] + c
  {
  }

  predicate Fills(field: string) { Fill(NOTHING, field).Some? }

  lemma {:induction false} FillAllIff(p: Partial, ws: seq<string>)
    ensures FillAll(p, ws).Some? <==> forall i :: 0 <= i < |ws| ==> Fills(ws[i])
    decreases |ws|
  {
    if ws != [] {
      FillAnyway(p, ws[0]);
      if Fills(ws[0]) {
        FillAllIff(Fill(p, ws[0]).value, ws[1..]);
        assert forall i :: 0 < i < |ws| ==> ws[i] == ws[1..][i - 1];
      }
    }
  }

  lemma FillAnyway(p: Partial, field: string)
    ensures Fill(p, field).Some? <==> Fills(field)
  {
    hide ParseNat, Hash32, KeyValue;
  }

  lemma {:induction false} FillAllAppend(p: Partial, a: seq<string>, b: seq<string>)
    requires FillAll(p, a).Some?
    ensures FillAll(p, a + b) == FillAll(FillAll(p, a).value, b)
    decreases |a|
  {
    hide Fill;
    if a == [] {
      assert a + b == b;
    } else {
      FillAllAppend(Fill(p, a[0]).value, a[1..], b);
      assert (a + b)[1..] == a[1..] + b && (a + b)[0] == a[0];
    }
  }

  /** A value with the next line's first field run into it is neither a number nor a hash. */
  lemma GluedValue(v: string, x: string)
    requires 't' in x && x[0] != '+'
    ensures ParseNat(v + x, MAX_U64).None? && Hash32(v + x).None?
  {
    hide DigitsVal, Bytes;
    var k :| 0 <= k < |x| && x[k] == 't';
    var u := v + x;
    assert u[|v| + k] == 't' && !IsHex('t') && !IsDigit('t');
    if u[0] == '+' {
      assert v != "";
      assert u[1..][|v| + k - 1] == 't';
    }
  }

  lemma GluedField(field: string, x: string)
    requires Fills(field) && 't' in x && x[0] != '+'
    ensures !Fills(field + x)
  {
    hide ParseNat, Hash32;
    var i := IndexOf(field, '=');
    var k, v := field[..i], field[i + 1..];
    assert field + x == k + ['='] + (v + x);
    IndexAfter(k, '=', v + x);
    assert (field + x)[..|k|] == k && (field + x)[|k| + 1..] == v + x;
    GluedValue(v, x);
  }

  /** The line that results does not parse. */
  lemma GluedLine(last: string, e: Entry)
    requires !IsBlank(last) && !EndsSpace(last) && ParseLine(last).Some?
    ensures ParseLine(last + Line(e)).None?
  {
    hide Words, Fill, FillAll, Fills, HexOf, Decimal, IsWord, LineWords;
    var w := Field("time", Decimal(e.time));
    var t := " " + (Field("nonce", Decimal(e.nonce)) + " " + (Field("txid", HexOf(e.txid)) + " "
      + if e.msgHash.None? then Field("payload_b3", HexOf(e.payloadHash))
        else Field("payload_b3", HexOf(e.payloadHash)) + " " + Field("msg_b3", HexOf(e.msgHash.value))));
    assert Line(e) == w + t;
    TimeIsWord(e);
    WordsGlue(last, w, t);
    var a := Words(last);
    var b := Words(last + Line(e));
    FillAllIff(NOTHING, a);
    assert Fills(a[|a| - 1]);
    assert w[0] == 't' && 't' in w;
    GluedField(a[|a| - 1], w);
    assert b[|a| - 1] == a[|a| - 1] + w;
    FillAllIff(NOTHING, b);
  }

  lemma TimeIsWord(e: Entry)
    ensures IsWord(Field("time", Decimal(e.time)))
  {
    hide Decimal, Field, IsSpace, KeyValue;
    KeysPlain();
    DecimalNoSpace(e.time);
    PlainIsWord("time", Decimal(e.time));
  }

  /** After white space the new line's fields override the unfinished line's: the new entry is
      read in the place of the old one. */
  lemma OverlaidLine(last: string, e: Entry)
    requires EndsSpace(last) && ParseLine(last).Some? && Sized(e) && e.msgHash.Some?
    ensures ParseLine(last + Line(e)) == Some(e)
  {
    hide Words, FillAll, Line, LineWords;
    WordsApart(last, Line(e));
    WordsOfLine(e);
    FillAllAppend(NOTHING, Words(last), LineWords(e));
    FillLine(FillAll(NOTHING, Words(last)).value, e);
  }

  /** What a journal with an unfinished last line reads as after an append. */
  lemma AppendUnfinished(text: string, e: Entry)
    requires Read(text).Some? && !IsBlank(LastPiece(text)) && Sized(e) && e.msgHash.Some?
    ensures Read(text).value != []
    ensures var es := Read(text).value;
            Read(text + Render(e)) == if EndsSpace(LastPiece(text)) then Some(es[..|es| - 1] + [e]) else None
  {
    hide Split, Line, ParseLine, ReadPieces, IsBlank, EndsSpace;
    var ps, last := Split(text, '\n'), LastPiece(text);
    var front, joined := ps[..|ps| - 1], LastPiece(text) + Line(e);
    assert ps == front + [last];
    PiecesAfter(text, e);
    EmptyIsBlank();
    ReadAppendBlank(front + [joined], "");
    ReadAppendLine(front, last);
    JoinedNotBlank(last, Line(e));
    ReadAppendLine(front, joined);
    if EndsSpace(last) {
      OverlaidLine(last, e);
    } else {
      GluedLine(last, e);
    }
  }
}
