/** The quote-aware scanners of the configuration reader, and the multi-line array reader. */
module Toml {
  import opened Text

  // ----- one automaton -----

  /** Inside a "basic" string, inside a 'literal' one, just after an odd run of backslashes. */
  datatype Quote = Quote(basic: bool, literal: bool, escaped: bool) {
    predicate Outside() { !basic && !literal }

    function Next(c: char): Quote {
      if c == '"' && !literal && !escaped then Quote(!basic, literal, false)
      else if c == '\'' && !basic then Quote(basic, !literal, false)
      else if c == '\\' && basic then Quote(basic, literal, !escaped)
      else Quote(basic, literal, false)
    }
  }

  const START := Quote(false, false, false)

  /** The state before position n. */
  function StateAt(s: string, n: nat): Quote
    requires n <= |s|
  {
    if n == 0 then START else StateAt(s, n - 1).Next(s[n - 1])
  }

  /** Never inside both kinds of string; a pending escape only inside a basic string. */
  lemma {:induction false} StateSound(s: string, n: nat)
    requires n <= |s|
    ensures var q := StateAt(s, n); !(q.basic && q.literal) && (q.escaped ==> q.basic)
  {
    if n > 0 {
      StateSound(s, n - 1);
    }
  }

  predicate Bare(s: string, i: nat)
    requires i < |s|
  {
    StateAt(s, i).Outside()
  }

  /** Every string the text opens it also closes. */
  predicate Closed(s: string) { StateAt(s, |s|).Outside() }

  lemma {:induction false} StatePrefix(s: string, t: string, n: nat)
    requires n <= |s|
    ensures StateAt(s + t, n) == StateAt(s, n)
  {
    if n > 0 {
      StatePrefix(s, t, n - 1);
    }
  }

  /** After a closed text scanning starts over. */
  lemma {:induction false} StateSuffix(s: string, t: string, n: nat)
    requires Closed(s) && n <= |t|
    ensures StateAt(s + t, |s| + n) == StateAt(t, n)
  {
    if n == 0 {
      StatePrefix(s, t, |s|);
      StateSound(s, |s|);
    } else {
      StateSuffix(s, t, n - 1);
      assert (s + t)[|s| + n - 1] == t[n - 1];
    }
  }

  // ----- comments -----

  /** Where the comment starts: the first hash outside strings, or the end. */
  function CommentAt(s: string, n: nat): nat
    requires n <= |s|
    decreases |s| - n
  {
    if n == |s| then n else if s[n] == '#' && Bare(s, n) then n else CommentAt(s, n + 1)
  }

  lemma {:induction false} CommentIsFirst(s: string, n: nat)
    requires n <= |s|
    ensures var k := CommentAt(s, n);
            && n <= k <= |s| && (k < |s| ==> s[k] == '#' && Bare(s, k))
            && (forall i :: n <= i < k ==> !(s[i] == '#' && Bare(s, i)))
    decreases |s| - n
  {
    if n < |s| && !(s[n] == '#' && Bare(s, n)) {
      CommentIsFirst(s, n + 1);
    }
  }

  function StripComment(s: string): string { CommentIsFirst(s, 0); s[..CommentAt(s, 0)] }

  method StripCommentOf(line: string) returns (out: string)
    ensures out == StripComment(line)
  {
    out := "";
    var basic, literal, escaped := false, false, false;
    CommentIsFirst(line, 0);
    for i := 0 to |line|
      invariant out == line[..i] && Quote(basic, literal, escaped) == StateAt(line, i)
      invariant CommentAt(line, 0) == CommentAt(line, i)
    {
      var c := line[i];
      if c == '#' && !basic && !literal {
        return;
      } else if c == '"' && !literal && !escaped {
        basic, escaped := !basic, false;
      } else if c == '\'' && !basic {
        literal, escaped := !literal, false;
      } else if c == '\\' && basic {
        escaped := !escaped;
      } else {
        escaped := false;
      }
      out := out + [c];
    }
  }

  // ----- brackets -----

  /** The brackets outside strings among the first n characters, with their positions. */
  function BracketsIn(s: string, n: nat): seq<(nat, char)>
    requires n <= |s|
  {
    if n == 0 then []
    else BracketsIn(s, n - 1) + if (s[n - 1] == '[' || s[n - 1] == ']') && Bare(s, n - 1) then [(n - 1, s[n - 1])]
                                else []
  }

  function Brackets(s: string): seq<(nat, char)> { BracketsIn(s, |s|) }

  method UnquotedBrackets(s: string) returns (out: seq<(nat, char)>)
    ensures out == Brackets(s)
  {
    out := [];
    var basic, literal, escaped := false, false, false;
    for i := 0 to |s|
      invariant out == BracketsIn(s, i) && Quote(basic, literal, escaped) == StateAt(s, i)
    {
      var c := s[i];
      if c == '"' && !literal && !escaped {
        basic, escaped := !basic, false;
      } else if c == '\'' && !basic {
        literal, escaped := !literal, false;
      } else if c == '\\' && basic {
        escaped := !escaped;
      } else {
        if (c == '[' || c == ']') && !basic && !literal {
          out := out + [(i, c)];
        }
        escaped := false;
      }
    }
  }

  function Shifted(bs: seq<(nat, char)>, off: nat): (r: seq<(nat, char)>)
    ensures |r| == |bs|
  {
    seq(|bs|, i requires 0 <= i < |bs| => (bs[i].0 + off, bs[i].1))
  }

  lemma {:induction false} BracketsPrefix(s: string, t: string, n: nat)
    requires n <= |s|
    ensures BracketsIn(s + t, n) == BracketsIn(s, n)
  {
    if n > 0 {
      BracketsPrefix(s, t, n - 1);
      StatePrefix(s, t, n - 1);
    }
  }

  lemma ShiftSnoc(bs: seq<(nat, char)>, b: (nat, char), off: nat)
    ensures Shifted(bs + [b], off) == Shifted(bs, off) + [(b.0 + off, b.1)]
  {
  }

  lemma {:induction false} BracketsSuffix(s: string, t: string, n: nat)
    requires Closed(s) && n <= |t|
    ensures BracketsIn(s + t, |s| + n) == Brackets(s) + Shifted(BracketsIn(t, n), |s|)
  {
    hide StateAt, Shifted, BracketsIn;
    if n == 0 {
      BracketsPrefix(s, t, |s|);
      assert BracketsIn(t, 0) == [] by { BracketsNone(t); }
      assert Shifted([], |s|) == [];
    } else {
      BracketsSuffix(s, t, n - 1);
      StateSuffix(s, t, n - 1);
      var u, k, bs := s + t, |s| + n, BracketsIn(t, n - 1);
      assert u[k - 1] == t[n - 1];
      BracketsStep(u, k);
      BracketsStep(t, n);
      ShiftSnoc(bs, (n - 1, t[n - 1]), |s|);
      assert Bare(u, k - 1) == Bare(t, n - 1);
    }
  }

  lemma BracketsNone(s: string)
    ensures BracketsIn(s, 0) == []
  {
  }

  lemma BracketsStep(s: string, n: nat)
    requires 1 <= n <= |s|
    ensures if (s[n - 1] == '[' || s[n - 1] == ']') && Bare(s, n - 1)
            then BracketsIn(s, n) == BracketsIn(s, n - 1) + [(n - 1, s[n - 1])]
            else BracketsIn(s, n) == BracketsIn(s, n - 1)
  {
    hide StateAt;
  }

  lemma CloseSpace(s: string)
    ensures Closed(s + " ") <==> Closed(s)
    ensures Brackets(s + " ") == Brackets(s)
  {
    StatePrefix(s, " ", |s|);
    BracketsPrefix(s, " ", |s|);
    assert (s + " ")[|s|] == ' ';
  }

  /** Joining lines and shifting positions is one scan of the joined text. */
  lemma JoinedBrackets(s: string, t: string)
    requires Closed(s)
    ensures Brackets(s + " " + t) == Brackets(s) + Shifted(Brackets(t), |s| + 1)
  {
    CloseSpace(s);
    BracketsSuffix(s + " ", t, |t|);
  }

  /** After an open string the next line's bracket is inside it. */
  lemma JoinedOpen(s: string)
    requires !Closed(s)
    ensures Brackets(s + " " + "[") == Brackets(s)
  {
    var sp, t := s + " ", "[";
    CloseSpace(s);
    BracketsPrefix(sp, t, |sp|);
    StatePrefix(sp, t, |sp|);
  }

  /** That holds whatever follows exactly when the text closes its strings: otherwise a
      bracket on the next line is inside one. */
  lemma JoinedExact(s: string)
    ensures (forall t: string :: Brackets(s + " " + t) == Brackets(s) + Shifted(Brackets(t), |s| + 1)) <==> Closed(s)
  {
    if Closed(s) {
      forall t: string ensures Brackets(s + " " + t) == Brackets(s) + Shifted(Brackets(t), |s| + 1) {
        JoinedBrackets(s, t);
      }
    } else {
      JoinedOpen(s);
      OpenAlone();
    }
  }

  lemma OpenAlone()
    ensures Brackets("[") == [(0, '[')]
  {
    assert BracketsIn("[", 0) == [];
    assert Bare("[", 0);
  }

  // ----- top-level commas -----

  /** The pieces before position n and the one in progress. */
  function SplitIn(s: string, n: nat): (seq<string>, string)
    requires n <= |s|
  {
    if n == 0 then ([], "")
    else
      var r := SplitIn(s, n - 1);
      if s[n - 1] == ',' && Bare(s, n - 1) then (r.0 + [r.1], "") else (r.0, r.1 + [s[n - 1]])
  }

  function SplitTop(s: string): seq<string> { SplitIn(s, |s|).0 + [SplitIn(s, |s|).1] }

  method SplitTopLevel(s: string) returns (out: seq<string>)
    ensures out == SplitTop(s)
  {
    out := [];
    var cur := "";
    var basic, literal, escaped := false, false, false;
    for i := 0 to |s|
      invariant (out, cur) == SplitIn(s, i) && Quote(basic, literal, escaped) == StateAt(s, i)
    {
      StateSound(s, i);
      var c := s[i];
      if c == ',' && !basic && !literal {
        out, cur := out + [cur], "";
        continue;
      } else if c == '"' && !literal && !escaped {
        basic, escaped := !basic, false;
      } else if c == '\'' && !basic {
        literal, escaped := !literal, false;
      } else if c == '\\' && basic {
        escaped := !escaped;
      } else {
        escaped := false;
      }
      cur := cur + [c];
    }
    out := out + [cur];
  }

  function Rejoined(pieces: seq<string>): string {
    if pieces == [] then ""
    else if |pieces| == 1 then pieces[0]
    else Rejoined(pieces[..|pieces| - 1]) + "," + pieces[|pieces| - 1]
  }

  lemma RejoinSnoc(ps: seq<string>, x: string)
    ensures Rejoined(ps + [x]) == if ps == [] then x else Rejoined(ps) + "," + x
  {
    assert (ps + [x])[..|ps|] == ps;
  }

  /** Splitting at the commas outside strings and joining with commas gives the text back. */
  lemma {:induction false} SplitRejoins(s: string, n: nat)
    requires n <= |s|
    ensures Rejoined(SplitIn(s, n).0 + [SplitIn(s, n).1]) == s[..n]
  {
    hide Rejoined, StateAt;
    if n == 0 {
      RejoinSnoc([], "");
    } else {
      SplitRejoins(s, n - 1);
      var r := SplitIn(s, n - 1);
      RejoinSnoc(r.0, r.1);
      RejoinSnoc(r.0, r.1 + [s[n - 1]]);
      RejoinSnoc(r.0 + [r.1], "");
      assert s[..n] == s[..n - 1] + [s[n - 1]];
      if s[n - 1] == ',' && Bare(s, n - 1) {
        assert s[..n] == Rejoined(r.0 + [r.1]) + "," + "";
      }
    }
  }

  lemma SplitTopRejoins(s: string)
    ensures Rejoined(SplitTop(s)) == s
  {
    SplitRejoins(s, |s|);
    assert s[..|s|] == s;
  }

  function BareCommas(s: string, n: nat): nat
    requires n <= |s|
  {
    if n == 0 then 0 else BareCommas(s, n - 1) + if s[n - 1] == ',' && Bare(s, n - 1) then 1 else 0
  }

  /** One piece more than there are commas outside strings. */
  lemma {:induction false} SplitCounts(s: string, n: nat)
    requires n <= |s|
    ensures |SplitIn(s, n).0| == BareCommas(s, n)
  {
    hide StateAt;
    if n > 0 {
      SplitCounts(s, n - 1);
    }
  }

  /** Scanned on its own, the text has no comma outside strings. */
  predicate CommaFree(p: string) { forall i :: 0 <= i < |p| && p[i] == ',' ==> !Bare(p, i) }

  lemma CommaFreeSnoc(p: string, c: char)
    requires CommaFree(p) && (c == ',' ==> !Closed(p))
    ensures CommaFree(p + [c]) && StateAt(p + [c], |p| + 1) == StateAt(p, |p|).Next(c)
  {
    var q := p + [c];
    StatePrefix(p, [c], |p|);
    forall i | 0 <= i < |q| && q[i] == ',' ensures !Bare(q, i) {
      StatePrefix(p, [c], i);
      if i < |p| {
        assert q[i] == p[i] && !Bare(p, i);
      }
    }
  }

  /** Every piece stands alone: the scanner is in the same state inside it as when the piece
      is read by itself, so splitting a piece again leaves it whole. */
  lemma {:induction false} SplitStandsAlone(s: string, n: nat)
    requires n <= |s|
    ensures var r := SplitIn(s, n);
            && StateAt(r.1, |r.1|) == StateAt(s, n) && CommaFree(r.1)
            && (forall i :: 0 <= i < |r.0| ==> CommaFree(r.0[i]) && Closed(r.0[i]))
  {
    hide CommaFree, Closed;
    if n > 0 {
      SplitStandsAlone(s, n - 1);
      StateSound(s, n - 1);
      var r, c := SplitIn(s, n - 1), s[n - 1];
      if c == ',' && Bare(s, n - 1) {
        ClosedIs(r.1);
        EmptyFree();
      } else {
        ClosedIs(r.1);
        CommaFreeSnoc(r.1, c);
        assert r.1 + [c] == SplitIn(s, n).1;
      }
    }
    else {
      EmptyFree();
    }
  }

  lemma ClosedIs(s: string)
    ensures Closed(s) <==> StateAt(s, |s|).Outside()
  {
  }

  lemma EmptyFree()
    ensures CommaFree("") && StateAt("", 0) == START
  {
  }

  // ----- the array reader -----

  datatype Gathered = Gathered(joined: string, brackets: seq<(nat, char)>)

  /** The text of the first k lines joined by spaces, with the bracket list as it is kept. */
  function Gather(lines: seq<string>, start: nat, first: string, k: nat): Gathered
    requires 1 <= k && start + k <= |lines|
  {
    if k == 1 then
      var j := TrimEnd(StripComment(first));
      Gathered(j, Brackets(j))
    else
      var g, piece := Gather(lines, start, first, k - 1), Trim(StripComment(lines[start + k - 1]));
      Gathered(g.joined + " " + piece, g.brackets + Shifted(Brackets(piece), |g.joined| + 1))
  }

  /** The piece line k contributes. */
  function Piece(lines: seq<string>, start: nat, first: string, k: nat): string
    requires 1 <= k && start + k <= |lines|
  {
    if k == 1 then TrimEnd(StripComment(first)) else Trim(StripComment(lines[start + k - 1]))
  }

  lemma {:induction false} GatherClosed(lines: seq<string>, start: nat, first: string, k: nat)
    requires 1 <= k && start + k <= |lines|
    requires forall j :: 1 <= j <= k ==> Closed(Piece(lines, start, first, j))
    ensures Closed(Gather(lines, start, first, k).joined)
  {
    hide Closed, Brackets, StripComment, Trim, TrimEnd;
    assert Closed(Piece(lines, start, first, k));
    if k > 1 {
      GatherClosed(lines, start, first, k - 1);
      ClosedJoin(Gather(lines, start, first, k - 1).joined, Piece(lines, start, first, k));
    }
  }

  lemma ClosedJoin(s: string, t: string)
    requires Closed(s) && Closed(t)
    ensures Closed(s + " " + t)
  {
    CloseSpace(s);
    StateSuffix(s + " ", t, |t|);
  }

  /** When every line closes its strings, the list kept line by line is the list one scan of
      the joined text gives. */
  lemma {:induction false} GatherIsOneScan(lines: seq<string>, start: nat, first: string, k: nat)
    requires 1 <= k && start + k <= |lines|
    requires forall j :: 1 <= j < k ==> Closed(Piece(lines, start, first, j))
    ensures var g := Gather(lines, start, first, k); g.brackets == Brackets(g.joined)
  {
    hide Brackets, StripComment, Trim, TrimEnd, Closed;
    if k > 1 {
      GatherIsOneScan(lines, start, first, k - 1);
      GatherClosed(lines, start, first, k - 1);
      JoinedBrackets(Gather(lines, start, first, k - 1).joined, Piece(lines, start, first, k));
    }
  }

  /** The list kept for k lines is the list one scan of their joined text gives. */
  predicate OneScan(lines: seq<string>, start: nat, first: string, k: nat)
    requires 1 <= k && start + k <= |lines|
  {
    var g := Gather(lines, start, first, k); g.brackets == Brackets(g.joined)
  }

  /** The file up to the first k lines of the array, and then one line more. */
  function Then(lines: seq<string>, start: nat, k: nat, line: string): (r: seq<string>)
    requires start + k <= |lines|
    ensures |r| == start + k + 1
  {
    lines[..start + k] + [line]
  }

  lemma {:induction false} GatherPrefix(lines: seq<string>, start: nat, first: string, k: nat, line: string, n: nat)
    requires 1 <= n <= k && start + k <= |lines|
    ensures Gather(Then(lines, start, k, line), start, first, n) == Gather(lines, start, first, n)
    ensures Piece(Then(lines, start, k, line), start, first, n) == Piece(lines, start, first, n)
  {
    hide Brackets, StripComment, Trim, TrimEnd;
    if n > 1 {
      GatherPrefix(lines, start, first, k, line, n - 1);
    }
  }

  lemma BracketLine()
    ensures Trim(StripComment("[")) == "["
  {
    assert StateAt("[", 0) == START;
    assert CommentAt("[", 1) == 1;
    assert CommentAt("[", 0) == 1;
    assert StripComment("[") == "[";
    assert TrimEnd("[") == "[";
  }

  /** Past lines of which the last leaves a string open, some next line is read wrongly. */
  lemma OpenLineBreaks(lines: seq<string>, start: nat, first: string, k: nat)
    requires 1 <= k && start + k <= |lines|
    requires (forall j :: 1 <= j < k ==> Closed(Piece(lines, start, first, j)))
             && !Closed(Piece(lines, start, first, k))
    ensures !OneScan(Then(lines, start, k, "["), start, first, k + 1)
  {
    hide Brackets, StripComment, Trim, TrimEnd, Closed, Gather;
    var next := Then(lines, start, k, "[");
    GatherPrefix(lines, start, first, k, "[", k);
    GatherIsOneScan(lines, start, first, k);
    var g := Gather(lines, start, first, k);
    GatherOpen(lines, start, first, k);
    GatherStep(next, start, first, k + 1);
    BracketLine();
    JoinedOpen(g.joined);
    OpenAlone();
  }

  lemma GatherOpen(lines: seq<string>, start: nat, first: string, k: nat)
    requires 1 <= k && start + k <= |lines|
    requires (forall j :: 1 <= j < k ==> Closed(Piece(lines, start, first, j)))
             && !Closed(Piece(lines, start, first, k))
    ensures !Closed(Gather(lines, start, first, k).joined)
  {
    hide Brackets, StripComment, Trim, TrimEnd, Closed;
    if k > 1 {
      GatherClosed(lines, start, first, k - 1);
      OpenJoin(Gather(lines, start, first, k - 1).joined, Piece(lines, start, first, k));
    }
  }

  lemma OpenJoin(s: string, t: string)
    requires Closed(s) && !Closed(t)
    ensures !Closed(s + " " + t)
  {
    CloseSpace(s);
    StateSuffix(s + " ", t, |t|);
  }

  /** At every line the list is one scan of the text so far, whatever that line is, exactly when
      each line before it closes its strings. */
  lemma GatherExact(lines: seq<string>, start: nat, first: string, k: nat)
    requires 1 <= k && start + k <= |lines|
    ensures (forall j, line: string :: 1 <= j <= k ==> OneScan(Then(lines, start, j, line), start, first, j + 1))
            <==> (forall j :: 1 <= j <= k ==> Closed(Piece(lines, start, first, j)))
  {
    hide Brackets, StripComment, Trim, TrimEnd, Closed, Gather, Piece, OneScan, Then;
    if forall j :: 1 <= j <= k ==> Closed(Piece(lines, start, first, j)) {
      forall j, line: string | 1 <= j <= k ensures OneScan(Then(lines, start, j, line), start, first, j + 1) {
        ClosedScans(lines, start, first, j, line);
      }
    } else {
      var j := FirstOpen(lines, start, first, k);
      OpenLineBreaks(lines, start, first, j);
    }
  }

  lemma ClosedScans(lines: seq<string>, start: nat, first: string, j: nat, line: string)
    requires 1 <= j && start + j <= |lines| && forall i :: 1 <= i <= j ==> Closed(Piece(lines, start, first, i))
    ensures OneScan(Then(lines, start, j, line), start, first, j + 1)
  {
    hide Brackets, StripComment, Trim, TrimEnd, Closed, Gather, Piece;
    var next := Then(lines, start, j, line);
    forall i | 1 <= i < j + 1 ensures Closed(Piece(next, start, first, i)) {
      GatherPrefix(lines, start, first, j, line, i);
    }
    GatherIsOneScan(next, start, first, j + 1);
  }

  lemma {:induction false} FirstOpen(lines: seq<string>, start: nat, first: string, k: nat) returns (j: nat)
    requires 1 <= k && start + k <= |lines| && exists i :: 1 <= i <= k && !Closed(Piece(lines, start, first, i))
    ensures 1 <= j <= k && !Closed(Piece(lines, start, first, j)) && forall i :: 1 <= i < j ==>
              Closed(Piece(lines, start, first, i))
  {
    hide Closed, Piece;
    if i :| 1 <= i < k && !Closed(Piece(lines, start, first, i)) {
      j := FirstOpen(lines, start, first, k - 1);
    } else {
      j := k;
    }
  }

  lemma StateStep(s: string, n: nat)
    requires 0 < n <= |s|
    ensures StateAt(s, n) == StateAt(s, n - 1).Next(s[n - 1])
  {
  }

  /** An array whose string is broken across two lines: read line by line the closing bracket is
      taken for part of a string, though in the joined text it is not. */
  lemma BrokenString()
    ensures var lines := ["[\"", "\"]"];
            var g := Gather(lines, 0, lines[0], 2);
            g.joined == "[\" \"]" && g.brackets == [(0, '[')] && Brackets(g.joined) == [(0, '['), (4, ']')]
  {
    hide StateAt;
    var a, b, all := "[\"", "\"]", "[\" \"]";
    FirstHalf();
    SecondHalf();
    Whole();
    var lines := [a, b];
    assert Gather(lines, 0, a, 1) == Gathered(a, [(0, '[')]);
    GatherStep(lines, 0, a, 2);
    assert a + " " + b == all;
    assert Shifted([], 3) == [];
  }

  lemma Started(s: string)
    ensures StateAt(s, 0) == START
  {
  }

  lemma FirstHalf()
    ensures var a := "[\""; TrimEnd(StripComment(a)) == a && Brackets(a) == [(0, '[')]
  {
    hide StateAt;
    var a := "[\"";
    Started(a);
    StateStep(a, 1);
    assert CommentAt(a, 2) == 2 && CommentAt(a, 1) == 2 && CommentAt(a, 0) == 2;
    assert StripComment(a) == a && TrimEnd(a) == a;
    assert BracketsIn(a, 0) == [] && BracketsIn(a, 1) == [(0, '[')] && BracketsIn(a, 2) == [(0, '[')];
  }

  lemma SecondHalf()
    ensures var b := "\"]"; Trim(StripComment(b)) == b && Brackets(b) == []
  {
    hide StateAt;
    var b := "\"]";
    Started(b);
    StateStep(b, 1);
    assert CommentAt(b, 2) == 2 && CommentAt(b, 1) == 2 && CommentAt(b, 0) == 2;
    assert StripComment(b) == b && TrimEnd(b) == b;
    assert BracketsIn(b, 0) == [] && BracketsIn(b, 1) == [] && BracketsIn(b, 2) == [];
  }

  lemma Whole()
    ensures Brackets("[\" \"]") == [(0, '['), (4, ']')]
  {
    hide StateAt;
    var s := "[\" \"]";
    Started(s);
    StateStep(s, 1);
    StateStep(s, 2);
    StateStep(s, 3);
    StateStep(s, 4);
    assert BracketsIn(s, 0) == [] && BracketsIn(s, 1) == [(0, '[')] && BracketsIn(s, 2) == [(0, '[')];
    assert BracketsIn(s, 3) == [(0, '[')] && BracketsIn(s, 4) == [(0, '[')];
  }

  function Opens(bs: seq<(nat, char)>): nat {
    if bs == [] then 0 else Opens(bs[..|bs| - 1]) + if bs[|bs| - 1].1 == '[' then 1 else 0
  }

  lemma {:induction false} OpensBound(bs: seq<(nat, char)>)
    ensures Opens(bs) <= |bs|
    ensures (exists i :: 0 <= i < |bs| && bs[i].1 == '[') ==> Opens(bs) >= 1
    ensures Opens(bs) < |bs| ==> exists i :: 0 <= i < |bs| && bs[i].1 != '['
  {
    if bs != [] {
      OpensBound(bs[..|bs| - 1]);
    }
  }

  predicate Balanced(bs: seq<(nat, char)>) { |bs| - Opens(bs) >= Opens(bs) }

  ghost predicate Sound(g: Gathered) {
    && g.brackets != [] && g.brackets[0] == (0, '[')
    && (forall i :: 0 <= i < |g.brackets| ==>
          && g.brackets[i].0 < |g.joined| && g.joined[g.brackets[i].0] == g.brackets[i].1
          && (g.brackets[i].1 == '[' || g.brackets[i].1 == ']'))
  }

  lemma {:induction false} BracketsSound(s: string, n: nat)
    requires n <= |s|
    ensures forall i :: 0 <= i < |BracketsIn(s, n)| ==>
              && BracketsIn(s, n)[i].0 < n && s[BracketsIn(s, n)[i].0] == BracketsIn(s, n)[i].1
              && (BracketsIn(s, n)[i].1 == '[' || BracketsIn(s, n)[i].1 == ']')
    ensures n > 0 && s[0] == '[' ==> BracketsIn(s, n) != [] && BracketsIn(s, n)[0] == (0, '[')
  {
    if n > 0 {
      BracketsSound(s, n - 1);
    }
  }

  lemma FirstKept(first: string)
    requires first != "" && first[0] == '['
    ensures var j := TrimEnd(StripComment(first)); j != "" && j[0] == '['
  {
    CommentIsFirst(first, 0);
    assert CommentAt(first, 0) != 0;
    TrimEndKeeps(StripComment(first));
  }

  /** Every entry of the list is a bracket of the joined text, and the first is its first
      character. */
  lemma {:induction false} GatherSound(lines: seq<string>, start: nat, first: string, k: nat)
    requires 1 <= k && start + k <= |lines| && first != "" && first[0] == '['
    ensures Sound(Gather(lines, start, first, k))
  {
    hide StripComment, Trim, TrimEnd, BracketsIn;
    if k == 1 {
      FirstKept(first);
      BracketsSound(Piece(lines, start, first, 1), |Piece(lines, start, first, 1)|);
    } else {
      GatherSound(lines, start, first, k - 1);
      var g, p := Gather(lines, start, first, k - 1), Piece(lines, start, first, k);
      BracketsSound(p, |p|);
      AppendSound(g, p);
    }
  }

  lemma AppendSound(g: Gathered, p: string)
    requires Sound(g)
    requires forall i :: 0 <= i < |Brackets(p)| ==>
               && Brackets(p)[i].0 < |p| && p[Brackets(p)[i].0] == Brackets(p)[i].1
               && (Brackets(p)[i].1 == '[' || Brackets(p)[i].1 == ']')
    ensures Sound(Gathered(g.joined + " " + p, g.brackets + Shifted(Brackets(p), |g.joined| + 1)))
  {
    hide Brackets;
    var at, bs := |g.joined| + 1, Brackets(p);
    var next := g.brackets + Shifted(bs, at);
    var text := g.joined + " " + p;
    forall i | 0 <= i < |next|
      ensures next[i].0 < |text| && text[next[i].0] == next[i].1 && (next[i].1 == '[' || next[i].1 == ']') {
      if i < |g.brackets| {
        assert next[i] == g.brackets[i];
      } else {
        var b := bs[i - |g.brackets|];
        assert next[i] == (b.0 + at, b.1);
        assert text[b.0 + at] == p[b.0];
      }
    }
  }

  datatype ArrayRead = Unclosed | TextAfter | Nested | Items(pieces: seq<string>, consumed: nat)

  /** The number of lines the array takes: the first count at which brackets balance. */
  ghost predicate Takes(lines: seq<string>, start: nat, first: string, k: nat) {
    && 1 <= k && start + k <= |lines| && Balanced(Gather(lines, start, first, k).brackets)
    && (forall j :: 1 <= j < k ==> !Balanced(Gather(lines, start, first, j).brackets))
  }

  /** The position of the last closing bracket in the list. */
  ghost predicate Closes(g: Gathered, close: nat) {
    && 0 < close < |g.joined| && g.joined[close] == ']'
    && exists i :: 0 <= i < |g.brackets| && g.brackets[i] == (close, ']') && forall j :: i < j < |g.brackets| ==>
      g.brackets[j].1 == '['
  }

  ghost predicate OpensWithin(g: Gathered, close: nat) {
    exists i :: 0 <= i < |g.brackets| && g.brackets[i].1 == '[' && 0 < g.brackets[i].0 < close
  }

  /** What reading k lines and closing at the given position must return. */
  ghost predicate Answer(g: Gathered, k: nat, close: nat, r: ArrayRead)
    requires 0 < close < |g.joined|
  {
    if Trim(g.joined[close + 1..]) != "" then r == TextAfter
    else if OpensWithin(g, close) then r == Nested
    else r == Items(SplitTop(g.joined[1..close]), k)
  }

  /** Unclosed when no number of lines balances; otherwise what the first that does gives. */
  ghost predicate ReadSpec(lines: seq<string>, start: nat, first: string, r: ArrayRead) {
    && (r == Unclosed <==> forall k :: 1 <= k && start + k <= |lines| ==>
          !Balanced(Gather(lines, start, first, k).brackets))
    && (r != Unclosed ==>
          exists k, close :: Takes(lines, start, first, k) && Closes(Gather(lines, start, first, k), close)
                             && Answer(Gather(lines, start, first, k), k, close, r))
  }

  /** Reads lines until the brackets balance, then parts the inside at its commas. It always
      ends, and a closing bracket is always there to be found. */
  method ReadArray(lines: seq<string>, start: nat, first: string) returns (r: ArrayRead)
    requires start < |lines| && first != "" && first[0] == '['
    ensures ReadSpec(lines, start, first, r)
  {
    hide Balanced, Gather, Trim, SplitTop, Rejoined, Opens, Closes, Answer;
    var k := 1;
    var g := Gather(lines, start, first, 1);
    while !Balanced(g.brackets)
      invariant 1 <= k && start + k <= |lines| && g == Gather(lines, start, first, k)
      invariant forall j :: 1 <= j < k ==> !Balanced(Gather(lines, start, first, j).brackets)
      decreases |lines| - k
    {
      if start + k == |lines| {
        return Unclosed;
      }
      GatherStep(lines, start, first, k + 1);
      var stripped := StripCommentOf(lines[start + k]);
      var piece := Trim(stripped);
      var bs := UnquotedBrackets(piece);
      g := Gathered(g.joined + " " + piece, g.brackets + Shifted(bs, |g.joined| + 1));
      k := k + 1;
    }
    GatherSound(lines, start, first, k);
    var close := LastClose(g);
    r := Finish(g, k, close);
    assert Takes(lines, start, first, k);
  }

  method Finish(g: Gathered, k: nat, close: nat) returns (r: ArrayRead)
    requires 0 < close < |g.joined|
    ensures Answer(g, k, close, r) && r != Unclosed
  {
    hide SplitTop, Trim;
    if Trim(g.joined[close + 1..]) != "" {
      return TextAfter;
    }
    if exists i :: 0 <= i < |g.brackets| && g.brackets[i].1 == '[' && 0 < g.brackets[i].0 < close {
      return Nested;
    }
    var pieces := SplitTopLevel(g.joined[1..close]);
    r := Items(pieces, k);
  }

  lemma GatherStep(lines: seq<string>, start: nat, first: string, k: nat)
    requires 2 <= k && start + k <= |lines|
    ensures var g, piece := Gather(lines, start, first, k - 1), Trim(StripComment(lines[start + k - 1]));
            Gather(lines, start, first, k) ==
              Gathered(g.joined + " " + piece, g.brackets + Shifted(Brackets(piece), |g.joined| + 1))
  {
    hide Trim, StripComment, Brackets;
  }

  /** The last closing bracket; balance means there is one. */
  method LastClose(g: Gathered) returns (close: nat)
    requires Sound(g) && Balanced(g.brackets)
    ensures 0 < close < |g.joined| && Closes(g, close)
  {
    OpensBound(g.brackets);
    var i := |g.brackets| - 1;
    while g.brackets[i].1 != ']'
      invariant 0 <= i < |g.brackets|
      invariant forall j :: i < j < |g.brackets| ==> g.brackets[j].1 == '['
      decreases i
    {
      i := i - 1;
    }
    close := g.brackets[i].0;
  }
}
