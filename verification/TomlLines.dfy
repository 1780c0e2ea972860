/** Arrays with an item on each line: blanks and comments around the items, a comma after the
    last or not. */
module TomlLines {
  import opened Wrappers
  import opened Text
  import opened Toml
  import opened TomlValues

  // ----- one line -----

  /** White space, and then perhaps a comment. */
  ghost predicate Rest(t: string, k: nat) { k <= |t| && IsBlank(t[..k]) && (k == |t| || t[k] == '#') }

  ghost predicate IsRest(t: string) { exists k: nat :: Rest(t, k) }

  /** A text that stands on a line: closed, without a comment, and with no white space around
      it. */
  predicate Solid(c: string) {
    && c != "" && !IsSpace(c[0]) && !IsSpace(c[|c| - 1]) && Closed(c)
    && (forall i :: 0 <= i < |c| && Bare(c, i) ==> c[i] != '#')
  }

  lemma {:induction false} BlankState(s: string, n: nat)
    requires IsBlank(s) && n <= |s|
    ensures StateAt(s, n) == START
  {
    if n > 0 {
      BlankState(s, n - 1);
      assert IsSpace(s[n - 1]);
    }
  }

  lemma {:induction false} CommentIs(t: string, n: nat, p: nat)
    requires n <= p <= |t| && (p < |t| ==> t[p] == '#' && Bare(t, p))
    requires forall i :: n <= i < p && Bare(t, i) ==> t[i] != '#'
    ensures CommentAt(t, n) == p
    decreases p - n
  {
    hide Bare;
    if n < p {
      CommentIs(t, n + 1, p);
    }
  }

  lemma {:induction false} TrimEndBlank(c: string, s: string)
    requires c != "" && !IsSpace(c[|c| - 1]) && IsBlank(s)
    ensures TrimEnd(c + s) == c
    decreases |s|
  {
    hide IsSpace;
    if s == "" {
      assert c + s == c;
    } else {
      var t := c + s;
      assert IsSpace(s[|s| - 1]) && t[|t| - 1] == s[|s| - 1];
      TrimEndBlank(c, s[..|s| - 1]);
      assert t[..|t| - 1] == c + s[..|s| - 1];
    }
  }

  lemma {:induction false} TrimStartBlank(s: string, c: string)
    requires c != "" && !IsSpace(c[0]) && IsBlank(s)
    ensures TrimStart(s + c) == c
    decreases |s|
  {
    hide IsSpace;
    if s == "" {
      assert s + c == c;
    } else {
      assert IsSpace(s[0]) && (s + c)[0] == s[0];
      TrimStartBlank(s[1..], c);
      assert (s + c)[1..] == s[1..] + c;
    }
  }

  /** The state of the scanner in the parts of a line. */
  lemma LineStates(lead: string, c: string, tail: string, i: nat)
    requires IsBlank(lead) && Closed(c) && i <= |c|
    ensures var t := lead + c + tail;
            StateAt(t, |lead| + i) == StateAt(c, i)
  {
    hide StateAt;
    BlankState(lead, |lead|);
    StateSuffix(lead, c, i);
    StatePrefix(lead + c, tail, |lead| + i);
  }

  lemma TailStates(lead: string, c: string, tail: string, k: nat, i: nat)
    requires IsBlank(lead) && Closed(c) && Rest(tail, k) && i <= k
    ensures var t := lead + c + tail;
            StateAt(t, |lead| + |c| + i) == START
  {
    hide StateAt, IsBlank, IsSpace;
    BlankState(lead, |lead|);
    StateSuffix(lead, c, |c|);
    var front := lead + c;
    assert Closed(front);
    StateSuffix(front, tail, i);
    StatePrefix(tail[..k], tail[k..], i);
    assert tail[..k] + tail[k..] == tail;
    BlankState(tail[..k], i);
  }

  lemma LineComment(lead: string, c: string, tail: string, k: nat)
    requires IsBlank(lead) && Solid(c) && Rest(tail, k)
    ensures StripComment(lead + c + tail) == lead + c + tail[..k]
  {
    hide StateAt;
    var t, p := lead + c + tail, |lead| + |c| + k;
    forall i | 0 <= i < p && Bare(t, i) ensures t[i] != '#' {
      if i < |lead| {
        assert IsSpace(lead[i]) && t[i] == lead[i];
      } else if i < |lead| + |c| {
        LineStates(lead, c, tail, i - |lead|);
        assert t[i] == c[i - |lead|] && Bare(c, i - |lead|);
      } else {
        assert t[i] == tail[..k][i - |lead| - |c|] && IsSpace(t[i]);
      }
    }
    if k < |tail| {
      TailStates(lead, c, tail, k, k);
      assert t[p] == tail[k];
    }
    CommentIs(t, 0, p);
    assert t[..p] == lead + c + tail[..k];
  }

  /** What a line of an array contributes: its text, without the blanks and the comment. */
  lemma LineGives(lead: string, c: string, tail: string)
    requires IsBlank(lead) && Solid(c) && IsRest(tail)
    ensures Trim(StripComment(lead + c + tail)) == c
    ensures lead == "" ==> TrimEnd(StripComment(c + tail)) == c
  {
    hide Solid, StripComment, IsBlank, Rest;
    var k: nat :| Rest(tail, k);
    LineComment(lead, c, tail, k);
    SolidEnds(c);
    RestBlank(tail, k);
    var u := lead + c;
    assert u[|u| - 1] == c[|c| - 1];
    TrimEndBlank(u, tail[..k]);
    TrimStartBlank(lead, c);
    if lead == "" {
      assert lead + c + tail == c + tail && lead + c == c;
    }
  }

  lemma SolidEnds(c: string)
    requires Solid(c)
    ensures c != "" && !IsSpace(c[0]) && !IsSpace(c[|c| - 1])
  {
  }

  lemma RestBlank(t: string, k: nat)
    requires Rest(t, k)
    ensures k <= |t| && IsBlank(t[..k])
  {
  }

  // ----- the lines of a list -----

  function ItemText(s: string, comma: bool): string { Quoted(s) + if comma then "," else "" }

  lemma ItemSolid(s: string, comma: bool)
    ensures Solid(ItemText(s, comma)) && Plain(ItemText(s, comma))
  {
    hide Quoted, Inert, StateAt;
    var q := Quoted(s);
    QuotedInert(s);
    InertPlain(q);
    InertCloses(q);
    if comma {
      EmptyInert();
      PlainJoin(q, "");
      assert q + "," + "" == q + ",";
    } else {
      assert q + "" == q;
    }
  }

  lemma InertCloses(q: string)
    requires Inert(q)
    ensures Closed(q)
  {
  }

  lemma EmptyInert()
    ensures Inert("")
  {
    SpaceInert();
  }

  lemma BracketSolid()
    ensures Solid("[") && Solid("]")
  {
    hide StateAt;
    Started("[");
    StateStep("[", 1);
    Started("]");
    StateStep("]", 1);
  }

  /** Whether the k-th item has a comma after it. */
  predicate Comma(n: nat, trailing: bool, k: nat) { trailing || k + 1 < n }

  ghost predicate LineHolds(line: string, c: string) {
    exists lead: string, tail: string :: IsBlank(lead) && IsRest(tail) && line == lead + c + tail
  }

  /** The opening bracket, a line for each item and one for the closing bracket, with any white
      space and any comments around them. */
  ghost predicate Spread(lines: seq<string>, start: nat, first: string, items: seq<string>, trailing: bool) {
    && start + |items| + 2 <= |lines|
    && (exists tail: string :: IsRest(tail) && first == "[" + tail)
    && (forall k :: 0 <= k < |items| ==>
          LineHolds(lines[start + 1 + k], ItemText(items[k], Comma(|items|, trailing, k))))
    && LineHolds(lines[start + |items| + 1], "]")
  }

  /** The first k items as they are joined. */
  function Joined(items: seq<string>, trailing: bool, k: nat): string
    requires k <= |items|
  {
    if k == 0 then ""
    else Joined(items, trailing, k - 1) + " " + ItemText(items[k - 1], Comma(|items|, trailing, k - 1))
  }

  lemma HeldGives(line: string, c: string)
    requires LineHolds(line, c) && Solid(c)
    ensures Trim(StripComment(line)) == c
  {
    hide Solid, StripComment, Trim, IsBlank, IsRest;
    var lead: string, tail: string :| IsBlank(lead) && IsRest(tail) && line == lead + c + tail;
    LineGives(lead, c, tail);
  }

  /** Up to the last item nothing but the opening bracket has been listed. */
  lemma {:induction false} GatherItems(lines: seq<string>, start: nat, first: string, items: seq<string>,
                                       trailing: bool, k: nat)
    requires Spread(lines, start, first, items, trailing) && k <= |items|
    ensures Gather(lines, start, first, k + 1) == Gathered("[" + Joined(items, trailing, k), [(0, '[')])
  {
    hide StripComment, Trim, TrimEnd, Brackets, ItemText, Solid, Plain, LineHolds;
    if k == 0 {
      var tail: string :| IsRest(tail) && first == "[" + tail;
      BracketSolid();
      BlankNone();
      LineGives("", "[", tail);
      OpenAlone();
      assert "[" + "" == "[";
    } else {
      GatherItems(lines, start, first, items, trailing, k - 1);
      GatherStep(lines, start, first, k + 1);
      var c := ItemText(items[k - 1], Comma(|items|, trailing, k - 1));
      assert LineHolds(lines[start + 1 + (k - 1)], c);
      ItemSolid(items[k - 1], Comma(|items|, trailing, k - 1));
      HeldGives(lines[start + k], c);
      NoBrackets(c);
      var g := Gather(lines, start, first, k);
      assert Shifted([], |g.joined| + 1) == [];
      assert g.brackets + [] == g.brackets;
      assert g.joined + " " + c == "[" + Joined(items, trailing, k);
    }
  }

  lemma BlankNone()
    ensures IsBlank("")
  {
  }

  lemma NoBrackets(t: string)
    requires Plain(t)
    ensures Brackets(t) == []
  {
    hide Plain;
    PlainBrackets(t, |t|);
  }

  lemma GatherLast(lines: seq<string>, start: nat, first: string, items: seq<string>, trailing: bool)
    requires Spread(lines, start, first, items, trailing)
    ensures var inner := Joined(items, trailing, |items|) + " ";
            Gather(lines, start, first, |items| + 2) == Gathered("[" + inner + "]", [(0, '['), (|inner| + 1, ']')])
  {
    hide StripComment, Trim, Brackets, ItemText, Solid, LineHolds, Gather;
    var n, inner := |items|, Joined(items, trailing, |items|) + " ";
    GatherItems(lines, start, first, items, trailing, n);
    GatherStep(lines, start, first, n + 2);
    BracketSolid();
    assert LineHolds(lines[start + n + 1], "]");
    HeldGives(lines[start + n + 1], "]");
    CloseAlone();
    var g := Gather(lines, start, first, n + 1);
    assert Shifted([(0, ']')], |g.joined| + 1) == [(|inner| + 1, ']')];
    assert g.joined + " " + "]" == "[" + inner + "]";
  }

  // ----- the pieces -----

  /** More text, without a comma, after one that ended in a comma. */
  lemma {:induction false} SplitMore(a: string, p: string, n: nat)
    requires Closed(a) && SplitIn(a, |a|).1 == "" && CommaFree(p) && n <= |p|
    ensures SplitIn(a + p, |a| + n) == (SplitIn(a, |a|).0, p[..n])
  {
    hide StateAt, CommaFree, SplitIn;
    if n == 0 {
      SplitPrefix(a, p, |a|);
    } else {
      SplitMore(a, p, n - 1);
      StateSuffix(a, p, n - 1);
      var t := a + p;
      assert t[|a| + n - 1] == p[n - 1] && Bare(t, |a| + n - 1) == Bare(p, n - 1);
      if p[n - 1] == ',' {
        FreeAt(p, n - 1);
      }
      SplitKeeps(t, |a| + n);
      assert p[..n] == p[..n - 1] + [p[n - 1]];
    }
  }

  lemma SplitKeeps(s: string, n: nat)
    requires 0 < n <= |s| && !(s[n - 1] == ',' && Bare(s, n - 1))
    ensures SplitIn(s, n) == (SplitIn(s, n - 1).0, SplitIn(s, n - 1).1 + [s[n - 1]])
  {
    hide StateAt;
  }

  lemma SplitCuts(s: string)
    requires Closed(s)
    ensures SplitIn(s + ",", |s| + 1) == (SplitIn(s, |s|).0 + [SplitIn(s, |s|).1], "")
  {
    hide StateAt;
    SplitPrefix(s, ",", |s|);
    StatePrefix(s, ",", |s|);
    ClosedIs(s);
  }

  function SpacedItem(s: string): string { " " + Quoted(s) }

  function PiecesOf(items: seq<string>): (r: seq<string>)
    ensures |r| == |items|
  {
    seq(|items|, i requires 0 <= i < |items| => SpacedItem(items[i]))
  }

  lemma PieceInert(s: string)
    ensures Inert(SpacedItem(s)) && CommaFree(SpacedItem(s)) && Closed(SpacedItem(s))
  {
    hide Quoted, StateAt;
    QuotedInert(s);
    SpaceInert();
    InertJoin(" ", Quoted(s));
    InertFree(SpacedItem(s));
  }

  /** Items with a comma after each part into one piece each. */
  lemma {:induction false} CommasSplit(items: seq<string>, trailing: bool, k: nat)
    requires k <= |items| && (trailing || k < |items| || k == 0)
    ensures var t := Joined(items, trailing, k);
            Closed(t) && SplitIn(t, |t|) == (PiecesOf(items[..k]), "")
  {
    hide StateAt, Quoted, SplitIn, CommaFree, Closed, Inert;
    if k == 0 {
      NothingSplit();
      assert PiecesOf(items[..0]) == [];
    } else {
      CommasSplit(items, trailing, k - 1);
      var a, p := Joined(items, trailing, k - 1), SpacedItem(items[k - 1]);
      PieceInert(items[k - 1]);
      SplitMore(a, p, |p|);
      assert p[..|p|] == p;
      ClosedPlus(a, p);
      SplitCuts(a + p);
      ClosedComma(a + p);
      assert Joined(items, trailing, k) == a + p + ",";
      assert PiecesOf(items[..k]) == PiecesOf(items[..k - 1]) + [p];
    }
  }

  lemma NothingSplit()
    ensures Closed("") && SplitIn("", 0) == ([], "")
  {
  }

  lemma ClosedPlus(a: string, p: string)
    requires Closed(a) && Closed(p)
    ensures Closed(a + p)
  {
    hide StateAt;
    StateSuffix(a, p, |p|);
  }

  lemma ClosedComma(a: string)
    requires Closed(a)
    ensures Closed(a + ",")
  {
    CommaCloses(a);
  }

  /** The pieces between the brackets: one for each item, and a blank one after a last comma. */
  function SpreadPieces(items: seq<string>, trailing: bool): seq<string> {
    if trailing || items == [] then PiecesOf(items) + [" "]
    else PiecesOf(items[..|items| - 1]) + [SpacedItem(items[|items| - 1]) + " "]
  }

  lemma SpreadSplits(items: seq<string>, trailing: bool)
    ensures SplitTop(Joined(items, trailing, |items|) + " ") == SpreadPieces(items, trailing)
  {
    hide StateAt, Quoted, SplitIn, CommaFree, Closed, Inert;
    var n := |items|;
    SpaceInert();
    if trailing || n == 0 {
      CommasSplit(items, trailing, n);
      var a := Joined(items, trailing, n);
      InertFree(" ");
      SplitMore(a, " ", 1);
      assert " "[..1] == " " && items[..n] == items;
    } else {
      CommasSplit(items, trailing, n - 1);
      var a, p := Joined(items, trailing, n - 1), SpacedItem(items[n - 1]);
      PieceInert(items[n - 1]);
      InertJoin(p, " ");
      InertFree(p + " ");
      SplitMore(a, p + " ", |p + " "|);
      assert (p + " ")[..|p + " "|] == p + " ";
      assert Joined(items, trailing, n) + " " == a + (p + " ");
    }
  }

  lemma PieceReads(s: string, tail: string)
    requires tail == "" || tail == " "
    ensures Trim(StripComment(SpacedItem(s) + tail)) == Quoted(s)
  {
    hide Quoted, Solid, StripComment, Trim;
    ItemSolid(s, false);
    assert ItemText(s, false) == Quoted(s);
    SpaceIsRest(tail);
    LineGives(" ", Quoted(s), tail);
  }

  lemma SpaceIsRest(tail: string)
    requires tail == "" || tail == " "
    ensures IsRest(tail) && IsBlank(" ")
  {
    assert Rest(tail, |tail|);
  }

  lemma ItemAdded(ps: seq<string>, p: string, vs: seq<Value>, s: string)
    requires ItemsOf(ps) == Ok(vs) && Trim(StripComment(p)) == Quoted(s) && (vs != [] ==> vs[0].Str?)
    ensures ItemsOf(ps + [p]) == Ok(vs + [Str(s)])
  {
    hide Quoted, StripComment, Trim, BasicFrom;
    QuotedInert(s);
    QuotedReads(s);
    assert (ps + [p])[..|ps|] == ps;
  }

  lemma {:induction false} PiecesOfRead(items: seq<string>)
    ensures ItemsOf(PiecesOf(items)) == Ok(Strings(items))
  {
    hide Quoted, StripComment, Trim, ItemsOf;
    var n := |items| - 1;
    if items == [] {
      NoneRead();
      assert PiecesOf(items) == [] && Strings(items) == [];
    } else {
      PiecesOfRead(items[..n]);
      PieceReads(items[n], "");
      assert SpacedItem(items[n]) + "" == SpacedItem(items[n]);
      ItemAdded(PiecesOf(items[..n]), SpacedItem(items[n]), Strings(items[..n]), items[n]);
      assert PiecesOf(items) == PiecesOf(items[..n]) + [SpacedItem(items[n])];
      assert Strings(items) == Strings(items[..n]) + [Str(items[n])];
    }
  }

  lemma NoneRead()
    ensures ItemsOf([]) == Ok([])
  {
  }

  lemma SpreadReads(items: seq<string>, trailing: bool)
    ensures ItemsOf(SpreadPieces(items, trailing)) == Ok(Strings(items))
  {
    hide Quoted, StripComment, Trim, ItemsOf;
    var n := |items| - 1;
    if trailing || items == [] {
      PiecesOfRead(items);
      BlankSkipped(PiecesOf(items));
    } else {
      PiecesOfRead(items[..n]);
      PieceReads(items[n], " ");
      ItemAdded(PiecesOf(items[..n]), SpacedItem(items[n]) + " ", Strings(items[..n]), items[n]);
      assert Strings(items) == Strings(items[..n]) + [Str(items[n])];
    }
  }

  lemma BlankSkipped(ps: seq<string>)
    ensures ItemsOf(ps + [" "]) == ItemsOf(ps)
  {
    hide Item, StripComment, Trim;
    BlankText();
    assert (ps + [" "])[..|ps|] == ps;
  }

  lemma BlankText()
    ensures Trim(StripComment(" ")) == ""
  {
    assert CommentAt(" ", 1) == 1;
    assert CommentAt(" ", 0) == 1;
    assert StripComment(" ") == " ";
    assert TrimEnd("") == "" && TrimEnd(" ") == TrimEnd(" "[..0]);
  }

  lemma OneNotBalanced(bs: seq<(nat, char)>)
    requires |bs| == 1 && bs[0].1 == '['
    ensures !Balanced(bs)
  {
    assert bs[..0] == [];
  }

  /** Any strings, an item on each line, with any white space and comments around them and with
      or without a comma after the last: the reader takes all the lines and gives the strings
      back. */
  lemma SpreadReadsBack(lines: seq<string>, start: nat, first: string, items: seq<string>, trailing: bool,
                        read: ArrayRead)
    requires Spread(lines, start, first, items, trailing) && ReadSpec(lines, start, first, read)
    ensures ArrayOf(read) == Ok((Strings(items), |items| + 2))
  {
    hide Gather, SplitTop, ItemsOf, Balanced, Joined, SpreadPieces, Spread;
    var n, inner := |items|, Joined(items, trailing, |items|) + " ";
    GatherLast(lines, start, first, items, trailing);
    SpreadFits(lines, start, first, items, trailing);
    var g := Gather(lines, start, first, n + 2);
    TwoBalance(g.brackets);
    forall j | 1 <= j < n + 2 ensures !Balanced(Gather(lines, start, first, j).brackets) {
      GatherItems(lines, start, first, items, trailing, j - 1);
      OneNotBalanced(Gather(lines, start, first, j).brackets);
    }
    var k: nat, close: nat :| Takes(lines, start, first, k) && Closes(Gather(lines, start, first, k), close)
      && Answer(Gather(lines, start, first, k), k, close, read);
    assert k == n + 2;
    assert close == |inner| + 1;
    assert g.joined[close + 1..] == "" && g.joined[1..close] == inner;
    assert Trim("") == "";
    assert !OpensWithin(g, close);
    SpreadSplits(items, trailing);
    SpreadReads(items, trailing);
  }

  lemma SpreadFits(lines: seq<string>, start: nat, first: string, items: seq<string>, trailing: bool)
    requires Spread(lines, start, first, items, trailing)
    ensures start + |items| + 2 <= |lines|
  {
  }
}
