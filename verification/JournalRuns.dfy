/** Runs of announcements against the journal: what is signed, what is lost, and when one nonce
    can be signed for two messages. */
module JournalRuns {
  import opened Wrappers
  import opened Text
  import opened SecHex
  import opened Journal

  // ----- announcing -----

  predicate SameStatement(e: Entry, msg: seq<Byte>) { e.msgHash == Some(msg) }

  /** The first entry at this nonce for another message, or for one that was not recorded. */
  function Conflict(es: seq<Entry>, nonce: nat, msg: seq<Byte>): Option<Entry> {
    if es == [] then None
    else if es[0].nonce == nonce && !SameStatement(es[0], msg) then Some(es[0])
    else Conflict(es[1..], nonce, msg)
  }

  lemma {:induction false} ConflictMeans(es: seq<Entry>, nonce: nat, msg: seq<Byte>)
    ensures Conflict(es, nonce, msg).None? <==> forall i :: 0 <= i < |es| && es[i].nonce == nonce ==>
              es[i].msgHash == Some(msg)
  {
    if es != [] {
      ConflictMeans(es[1..], nonce, msg);
      assert forall i :: 0 <= i < |es[1..]| ==> es[1..][i] == es[i + 1];
      if Conflict(es, nonce, msg).None? {
        forall i | 0 <= i < |es| && es[i].nonce == nonce ensures es[i].msgHash == Some(msg) {
          if i > 0 {
            assert es[i] == es[1..][i - 1];
          }
        }
      }
    }
  }

  datatype Request = Request(entry: Entry, reuse: bool)

  predicate Wellformed(q: Request) { Sized(q.entry) && q.entry.msgHash.Some? }

  predicate AllWellformed(qs: seq<Request>) { forall i :: 0 <= i < |qs| ==> Wellformed(qs[i]) }

  predicate WithoutReuse(qs: seq<Request>) { AllWellformed(qs) && forall i :: 0 <= i < |qs| ==> !qs[i].reuse }

  /** The announcement is signed: the journal reads, and its nonce is free for this message or
      reuse was asked for. */
  predicate Admits(text: string, q: Request)
    requires Wellformed(q)
  {
    Read(text).Some? && (q.reuse || Conflict(Read(text).value, q.entry.nonce, q.entry.msgHash.value).None?)
  }

  /** One announcement: the journal is read, the nonce checked, and, when it goes ahead, the
      entry appended. */
  function Announce(text: string, q: Request): string
    requires Wellformed(q)
  {
    if Admits(text, q) then text + Render(q.entry) else text
  }

  function Run(text: string, qs: seq<Request>): string
    requires AllWellformed(qs)
  {
    if qs == [] then text else Announce(Run(text, qs[..|qs| - 1]), qs[|qs| - 1])
  }

  /** The entries of the announcements that were signed, in order. */
  function Signed(text: string, qs: seq<Request>): seq<Entry>
    requires AllWellformed(qs)
  {
    if qs == [] then []
    else
      var q, before := qs[|qs| - 1], Signed(text, qs[..|qs| - 1]);
      if Admits(Run(text, qs[..|qs| - 1]), q) then before + [q.entry] else before
  }

  /** What the journal records before a run. */
  function Recorded(text: string): seq<Entry> { if Read(text).Some? then Read(text).value else [] }

  /** No entry from index n on shares its nonce with an earlier entry for another message, or
      with one whose message was not recorded. */
  ghost predicate OneMessagePerNonce(es: seq<Entry>, n: nat) {
    forall i, j :: 0 <= i < j < |es| && n <= j && es[i].nonce == es[j].nonce ==>
      es[i].msgHash.Some? && es[i].msgHash == es[j].msgHash
  }

  /** The rule over a run: whatever is signed agrees with all that was recorded or signed
      before it. */
  ghost predicate RuleKept(text: string, qs: seq<Request>)
    requires AllWellformed(qs)
  {
    OneMessagePerNonce(Recorded(text) + Signed(text, qs), |Recorded(text)|)
  }

  lemma RuleSnoc(es: seq<Entry>, n: nat, e: Entry)
    requires OneMessagePerNonce(es, n) && e.msgHash.Some?
    requires forall i :: 0 <= i < |es| && es[i].nonce == e.nonce ==> es[i].msgHash == e.msgHash
    ensures OneMessagePerNonce(es + [e], n)
  {
    var next := es + [e];
    forall i, j | 0 <= i < j < |next| && n <= j && next[i].nonce == next[j].nonce
      ensures next[i].msgHash.Some? && next[i].msgHash == next[j].msgHash
    {
      assert next[i] == es[i];
      if j < |es| {
        assert next[j] == es[j];
      }
    }
  }

  // ----- no entry is lost -----

  lemma {:induction false} NothingLost(text: string, qs: seq<Request>)
    requires Read(text).Some? && IsBlank(LastPiece(text)) && AllWellformed(qs)
    ensures Read(Run(text, qs)) == Some(Read(text).value + Signed(text, qs)) && IsBlank(LastPiece(Run(text, qs)))
  {
    hide Read, Render, LastPiece, IsBlank, Conflict;
    if qs == [] {
      assert Read(text).value + [] == Read(text).value;
    } else {
      var init, q := qs[..|qs| - 1], qs[|qs| - 1];
      NothingLost(text, init);
      var t := Run(text, init);
      if Admits(t, q) {
        AppendReads(t, q.entry);
        BlankAfterAppend(t, q.entry);
        assert (Read(text).value + Signed(text, init)) + [q.entry] == Read(text).value + Signed(text, qs);
      }
    }
  }

  function Zeros(): seq<Byte> { seq(32, i => 0) }

  function Ones(): seq<Byte> { seq(32, i => 1) }

  /** Over every run, with or without reuse, the journal reads as what it recorded before and
      all that was signed since, exactly when nothing but blanks follows its last newline. */
  lemma NothingLostIff(text: string)
    requires Read(text).Some?
    ensures (forall qs :: AllWellformed(qs) ==> Read(Run(text, qs)) == Some(Read(text).value + Signed(text, qs)))
            <==> IsBlank(LastPiece(text))
  {
    hide Read, Render, LastPiece, IsBlank;
    if IsBlank(LastPiece(text)) {
      forall qs | AllWellformed(qs) ensures Read(Run(text, qs)) == Some(Read(text).value + Signed(text, qs)) {
        NothingLost(text, qs);
      }
    } else {
      var e := Entry(0, 0, Zeros(), Zeros(), Some(Zeros()));
      var q := Request(e, true);
      var qs := [q];
      assert AllWellformed(qs) && qs[..0] == [];
      RunOne(text, q);
      AppendReads(text, e);
    }
  }

  lemma RunOne(text: string, q: Request)
    requires Wellformed(q) && Admits(text, q)
    ensures Run(text, [q]) == text + Render(q.entry) && Signed(text, [q]) == [q.entry]
  {
    hide Admits, Render;
    var qs := [q];
    assert qs[..|qs| - 1] == [];
    assert Run(text, []) == text && Signed(text, []) == [];
  }

  lemma RunTwo(text: string, q: Request, r: Request)
    requires Wellformed(q) && Wellformed(r) && Admits(text, q) && Admits(text + Render(q.entry), r)
    ensures Signed(text, [q, r]) == [q.entry, r.entry]
  {
    hide Admits, Render;
    RunOne(text, q);
    var qs := [q, r];
    assert qs[..|qs| - 1] == [q];
  }

  // ----- one message for each nonce -----

  /** The nonce of the last entry is guarded by earlier entries as well: one of them was for the
      same message, or for one that was not recorded, or they disagree among themselves. */
  ghost predicate Shielded(es: seq<Entry>)
    requires es != []
  {
    var a, front := es[|es| - 1], es[..|es| - 1];
    || (exists i :: 0 <= i < |front| && front[i].nonce == a.nonce
                    && (front[i].msgHash.None? || front[i].msgHash == a.msgHash))
    || (exists i, j :: 0 <= i < |front| && 0 <= j < |front| && front[i].nonce == front[j].nonce == a.nonce
                       && front[i].msgHash != front[j].msgHash)
  }

  /** The rule is safe on this journal: it does not read, so nothing is signed; or its last line
      is finished; or what is appended makes it unreadable; or the entry that is overridden is
      guarded without it. */
  ghost predicate Safe(text: string) {
    Read(text).Some? ==>
      || IsBlank(LastPiece(text)) || !EndsSpace(LastPiece(text))
      || (Read(text).value != [] && Shielded(Read(text).value))
  }

  lemma ShieldHolds(es: seq<Entry>, m: seq<Byte>)
    requires es != [] && Shielded(es) && Conflict(es[..|es| - 1], es[|es| - 1].nonce, m).None?
    ensures es[|es| - 1].msgHash == Some(m)
  {
    hide Conflict;
    ConflictMeans(es[..|es| - 1], es[|es| - 1].nonce, m);
  }

  lemma ShieldMissing(es: seq<Entry>) returns (m: seq<Byte>)
    requires es != [] && !Shielded(es) && (forall i :: 0 <= i < |es| ==> Sized(es[i]))
    ensures |m| == 32 && Conflict(es[..|es| - 1], es[|es| - 1].nonce, m).None? && es[|es| - 1].msgHash != Some(m)
  {
    hide Conflict;
    var a, front := es[|es| - 1], es[..|es| - 1];
    if i :| 0 <= i < |front| && front[i].nonce == a.nonce {
      m := front[i].msgHash.value;
      assert Sized(es[i]);
    } else {
      m := if a.msgHash == Some(Zeros()) then Ones() else Zeros();
      assert Zeros()[0] != Ones()[0];
    }
    ConflictMeans(front, a.nonce, m);
  }

  lemma {:induction false} UnreadableRun(text: string, qs: seq<Request>)
    requires Read(text).None? && AllWellformed(qs)
    ensures Run(text, qs) == text && Signed(text, qs) == []
  {
    hide Read;
    if qs != [] {
      UnreadableRun(text, qs[..|qs| - 1]);
    }
  }

  lemma {:induction false} FinishedRun(text: string, qs: seq<Request>)
    requires Read(text).Some? && IsBlank(LastPiece(text)) && WithoutReuse(qs)
    ensures RuleKept(text, qs)
  {
    hide Read, Render, LastPiece, IsBlank, Conflict;
    if qs != [] {
      var init, q := qs[..|qs| - 1], qs[|qs| - 1];
      FinishedRun(text, init);
      NothingLost(text, init);
      if Admits(Run(text, init), q) {
        var es := Recorded(text) + Signed(text, init);
        ConflictMeans(es, q.entry.nonce, q.entry.msgHash.value);
        RuleSnoc(es, |Recorded(text)|, q.entry);
        assert es + [q.entry] == Recorded(text) + Signed(text, qs);
      }
    }
  }

  /** The unfinished line runs into the first entry signed, and the journal reads no more. */
  lemma {:induction false} GluedRun(text: string, qs: seq<Request>)
    requires Read(text).Some? && !IsBlank(LastPiece(text)) && !EndsSpace(LastPiece(text)) && WithoutReuse(qs)
    ensures RuleKept(text, qs)
    ensures (Run(text, qs) == text && Signed(text, qs) == []) || Read(Run(text, qs)).None?
  {
    hide Read, Render, LastPiece, IsBlank, EndsSpace, Conflict;
    if qs != [] {
      var init, q := qs[..|qs| - 1], qs[|qs| - 1];
      GluedRun(text, init);
      if Admits(Run(text, init), q) {
        AppendUnfinished(text, q.entry);
        var es := Recorded(text) + Signed(text, init);
        assert es == Recorded(text);
        ConflictMeans(es, q.entry.nonce, q.entry.msgHash.value);
        RuleSnoc(es, |Recorded(text)|, q.entry);
        assert es + [q.entry] == Recorded(text) + Signed(text, qs);
      }
    }
  }

  /** The first entry signed takes the place of the unfinished one; the others follow it. */
  lemma {:induction false} OverlaidRun(text: string, qs: seq<Request>)
    requires Read(text).Some? && !IsBlank(LastPiece(text)) && EndsSpace(LastPiece(text)) && AllWellformed(qs)
    ensures Read(text).value != []
    ensures var es, t := Read(text).value, Run(text, qs);
            || (t == text && Signed(text, qs) == [])
            || (IsBlank(LastPiece(t)) && Read(t) == Some(es[..|es| - 1] + Signed(text, qs)))
  {
    hide Read, Render, LastPiece, IsBlank, EndsSpace, Conflict;
    var any := Entry(0, 0, Zeros(), Zeros(), Some(Zeros()));
    AppendUnfinished(text, any);
    if qs != [] {
      var init, q := qs[..|qs| - 1], qs[|qs| - 1];
      OverlaidRun(text, init);
      var es, t := Read(text).value, Run(text, init);
      if Admits(t, q) {
        BlankAfterAppend(t, q.entry);
        if t == text && Signed(text, init) == [] {
          AppendUnfinished(text, q.entry);
          assert [] + [q.entry] == [q.entry];
        } else {
          AppendReads(t, q.entry);
          assert (es[..|es| - 1] + Signed(text, init)) + [q.entry] == es[..|es| - 1] + Signed(text, qs);
        }
      }
    }
  }

  lemma {:induction false} ShieldedRun(text: string, qs: seq<Request>)
    requires Read(text).Some? && !IsBlank(LastPiece(text)) && EndsSpace(LastPiece(text)) && WithoutReuse(qs)
    requires Read(text).value != [] && Shielded(Read(text).value)
    ensures RuleKept(text, qs)
  {
    hide Read, Render, LastPiece, IsBlank, EndsSpace, Conflict, Shielded;
    if qs != [] {
      var init, q := qs[..|qs| - 1], qs[|qs| - 1];
      ShieldedRun(text, init);
      OverlaidRun(text, init);
      if Admits(Run(text, init), q) {
        ShieldedStep(text, init, q.entry);
        RuleSnoc(Recorded(text) + Signed(text, init), |Recorded(text)|, q.entry);
        assert Recorded(text) + Signed(text, init) + [q.entry] == Recorded(text) + Signed(text, qs);
      }
    }
  }

  /** What the journal admits agrees with the overridden entry too. */
  lemma ShieldedStep(text: string, qs: seq<Request>, e: Entry)
    requires Read(text).Some? && Read(text).value != [] && Shielded(Read(text).value) && AllWellformed(qs)
             && e.msgHash.Some?
    requires Read(Run(text, qs)).Some? && Conflict(Read(Run(text, qs)).value, e.nonce, e.msgHash.value).None?
    requires var es, t := Read(text).value, Run(text, qs);
             (t == text && Signed(text, qs) == []) || Read(t) == Some(es[..|es| - 1] + Signed(text, qs))
    ensures var all := Recorded(text) + Signed(text, qs);
            forall i :: 0 <= i < |all| && all[i].nonce == e.nonce ==> all[i].msgHash == e.msgHash
  {
    hide Read, Conflict, Shielded, Run, Signed;
    var es, got := Read(text).value, Read(Run(text, qs)).value;
    var all, front, signed := Recorded(text) + Signed(text, qs), es[..|es| - 1], Signed(text, qs);
    ConflictMeans(got, e.nonce, e.msgHash.value);
    if got != es {
      assert got == front + signed;
      ConflictMeans(front, e.nonce, e.msgHash.value);
      assert forall i :: 0 <= i < |front| ==> got[i] == front[i];
      forall i | 0 <= i < |all| && all[i].nonce == e.nonce ensures all[i].msgHash == e.msgHash {
        if i < |front| {
          assert all[i] == got[i];
        } else if i == |front| {
          ShieldHolds(es, e.msgHash.value);
        } else {
          assert all[i] == got[i - 1];
        }
      }
    } else if signed != [] {
      assert got == front + signed && |signed| == 1 && signed[0] == es[|es| - 1];
    }
  }

  /** Over every run of announcements without reuse, on a safe journal, nothing is signed at a
      nonce that was used for another message, or for one that was not recorded. */
  lemma RunKeeps(text: string, qs: seq<Request>)
    requires Safe(text) && WithoutReuse(qs)
    ensures RuleKept(text, qs)
  {
    hide Read, LastPiece, IsBlank, EndsSpace, Shielded;
    if Read(text).None? {
      UnreadableRun(text, qs);
    } else if IsBlank(LastPiece(text)) {
      FinishedRun(text, qs);
    } else if !EndsSpace(LastPiece(text)) {
      GluedRun(text, qs);
    } else {
      ShieldedRun(text, qs);
    }
  }

  // ----- and exactly then -----

  predicate PartialSized(p: Partial) {
    && (p.time.Some? ==> p.time.value <= MAX_U64) && (p.nonce.Some? ==> p.nonce.value <= MAX_U64)
    && (p.txid.Some? ==> |p.txid.value| == 32) && (p.payload.Some? ==> |p.payload.value| == 32)
    && (p.msg.Some? ==> |p.msg.value| == 32)
  }

  lemma FillSized(p: Partial, field: string)
    requires PartialSized(p)
    ensures Fill(p, field).Some? ==> PartialSized(Fill(p, field).value)
  {
    hide KeyValue, DigitsVal, FromHex;
  }

  lemma {:induction false} FillAllSized(p: Partial, ws: seq<string>)
    requires PartialSized(p)
    ensures FillAll(p, ws).Some? ==> PartialSized(FillAll(p, ws).value)
    decreases |ws|
  {
    hide Fill;
    if ws != [] && Fill(p, ws[0]).Some? {
      FillSized(p, ws[0]);
      FillAllSized(Fill(p, ws[0]).value, ws[1..]);
    }
  }

  lemma ParsedSized(line: string)
    ensures ParseLine(line).Some? ==> Sized(ParseLine(line).value)
  {
    hide FillAll, Words;
    FillAllSized(NOTHING, Words(line));
  }

  lemma {:induction false} ReadSized(ps: seq<string>)
    ensures ReadPieces(ps).Some? ==> forall i :: 0 <= i < |ReadPieces(ps).value| ==> Sized(ReadPieces(ps).value[i])
  {
    hide ParseLine;
    if ps != [] {
      ReadSized(ps[..|ps| - 1]);
      ParsedSized(ps[|ps| - 1]);
    }
  }

  function Upto(k: nat): (s: set<nat>)
    ensures forall n: nat :: n in s <==> n < k
    ensures |s| == k
  {
    if k == 0 then {} else Upto(k - 1) + {k - 1}
  }

  lemma {:induction false} NonceCount(es: seq<Entry>)
    ensures |set e | e in es :: e.nonce| <= |es|
  {
    if es != [] {
      var rest, last := es[..|es| - 1], es[|es| - 1];
      NonceCount(rest);
      assert (set e | e in es :: e.nonce) == (set e | e in rest :: e.nonce) + {last.nonce};
    } else {
      assert (set e | e in es :: e.nonce) == {};
    }
  }

  /** Some nonce up to the number of entries is not used. */
  lemma FreshNonce(es: seq<Entry>) returns (n: nat)
    ensures n <= |es| && forall i :: 0 <= i < |es| ==> es[i].nonce != n
  {
    var used := set e | e in es :: e.nonce;
    NonceCount(es);
    var all := Upto(|es| + 1);
    if all <= used {
      Smaller(all, used);
    }
    n :| n in all && n !in used;
    assert forall i :: 0 <= i < |es| ==> es[i] in es && es[i].nonce in used;
  }

  lemma {:induction false} Smaller(a: set<nat>, b: set<nat>)
    requires a <= b
    ensures |a| <= |b|
  {
    if a != {} {
      var x :| x in a;
      Smaller(a - {x}, b - {x});
    }
  }

  /** On any other journal two requests suffice: the first overrides the unfinished entry, the
      second is signed at its nonce for another message. */
  lemma RunBreaks(text: string) returns (qs: seq<Request>)
    requires !Safe(text) && |Recorded(text)| <= MAX_U64
    ensures WithoutReuse(qs) && !RuleKept(text, qs)
  {
    hide Split, ReadPieces, Render, LastPiece, IsBlank, EndsSpace, Conflict, Shielded;
    var es := Read(text).value;
    ReadSized(Split(text, '\n'));
    var n := FreshNonce(es);
    var b := Request(Entry(0, n, Zeros(), Zeros(), Some(Zeros())), false);
    AppendUnfinished(text, b.entry);
    var a, front := es[|es| - 1], es[..|es| - 1];
    var m := ShieldMissing(es);
    var c := Request(Entry(0, a.nonce, Zeros(), Zeros(), Some(m)), false);
    ConflictMeans(es, n, Zeros());
    ConflictMeans(front, a.nonce, m);
    ConflictMeans(front + [b.entry], a.nonce, m);
    RunTwo(text, b, c);
    qs := [b, c];
    var all := es + [b.entry, c.entry];
    assert all[|es| - 1] == a && all[|es| + 1] == c.entry;
  }

  /** Every run without reuse keeps one message for each nonce exactly when the journal is safe.
      A journal in memory has fewer entries than there are nonces. */
  lemma RunKeepsIff(text: string)
    requires |Recorded(text)| <= MAX_U64
    ensures Safe(text) <==> forall qs :: WithoutReuse(qs) ==> RuleKept(text, qs)
  {
    hide Safe, RuleKept;
    if Safe(text) {
      forall qs | WithoutReuse(qs) ensures RuleKept(text, qs) {
        RunKeeps(text, qs);
      }
    } else {
      var qs := RunBreaks(text);
    }
  }

  // ----- an instance -----

  lemma {:induction false} WordsTrail(s: string)
    ensures Words(s + " ") == Words(s)
    decreases |s|
  {
    hide WordLen, IsSpace;
    assert IsSpace(' ') by { SpaceIs(); }
    if s == "" {
      assert s + " " == [' '] + "";
      WordsSkip(' ', "");
    } else if IsSpace(s[0]) {
      WordsTrail(s[1..]);
      assert s == [s[0]] + s[1..] && s + " " == [s[0]] + (s[1..] + " ");
      WordsSkip(s[0], s[1..]);
      WordsSkip(s[0], s[1..] + " ");
    } else {
      FirstWord(s);
      var n := WordLen(s);
      var v, rest := s[..n], s[n..];
      assert s == v + rest && s + " " == v + (rest + " ");
      WordsHead(v, rest);
      WordsHead(v, rest + " ");
      WordsTrail(rest);
    }
  }

  lemma SpaceIs()
    ensures IsSpace(' ')
  {
  }

  lemma UnfinishedReads(a: Entry)
    requires Sized(a)
    ensures var text := Line(a) + " ";
            Read(text) == Some([a]) && LastPiece(text) == text && !IsBlank(text) && EndsSpace(text)
  {
    hide Words, Line, FillAll, Split, IsBlank, IsSpace;
    var text := Line(a) + " ";
    LineHasNoNewline(a);
    SpaceIs();
    assert '\n' !in text;
    SplitWhole(text, '\n');
    JoinedNotBlank(Line(a), " ");
    WordsTrail(Line(a));
    ParseLineOf(a);
    ReadAppendLine([], text);
    var none: seq<string> := [];
    assert none + [text] == [text] && ReadPieces(none) == Some([]);
    assert ParseLine(text) == Some(a);
    assert ReadPieces([text]) == Some([] + [a]) && [] + [a] == [a];
  }

  /** A journal that was left as one entry and a space: after one request at another nonce the
      first nonce is signed again, for another message. */
  lemma SignedTwice()
    ensures var a := Entry(0, 1, Zeros(), Zeros(), Some(Zeros()));
            var b, c := Request(Entry(0, 2, Zeros(), Zeros(), Some(Zeros())), false),
                Request(Entry(0, 1, Zeros(), Zeros(), Some(Ones())), false);
            Recorded(Line(a) + " ") == [a] && Signed(Line(a) + " ", [b, c]) == [b.entry, c.entry]
  {
    hide Line, Read, Render, LastPiece, IsBlank, EndsSpace, Conflict, Signed, Zeros, Ones;
    var a := Entry(0, 1, Zeros(), Zeros(), Some(Zeros()));
    var b, c := Request(Entry(0, 2, Zeros(), Zeros(), Some(Zeros())), false),
        Request(Entry(0, 1, Zeros(), Zeros(), Some(Ones())), false);
    SizesOf();
    UnfinishedReads(a);
    var text := Line(a) + " ";
    AppendUnfinished(text, b.entry);
    assert [a][..0] + [b.entry] == [b.entry];
    ConflictMeans([a], 2, Zeros());
    ConflictMeans([b.entry], 1, Ones());
    RunTwo(text, b, c);
  }

  lemma SizesOf()
    ensures |Zeros()| == 32 && |Ones()| == 32 && Zeros() != Ones()
  {
    assert Zeros()[0] != Ones()[0];
  }
}
