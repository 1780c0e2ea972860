/** The loop that adopts the best chain it can. */
module Adoption {
  import opened Wrappers
  import opened HeaderArena
  import opened ForkChoice

  /** What adopting a plan came to: done, a header of the branch found invalid, our own chain
      found invalid, refused by a rule, or an error that stops the loop. */
  datatype Verdict = Adopt | BranchBad(pos: nat) | OwnChainBad | RuleRefused | Stopped

  datatype Progress = Advanced | NeedBodies | NoChange | Refused | Failed

  ghost function EligibleSet(a: Arena, skip: set<nat>): set<nat> {
    set i: nat | i < |a.nodes| && Eligible(a, skip, i)
  }

  lemma SkipShrinks(a: Arena, skip: set<nat>, more: set<nat>, best: nat)
    requires Eligible(a, skip, best) && best in more
    ensures EligibleSet(a, skip + more) < EligibleSet(a, skip)
  {
    assert best in EligibleSet(a, skip) && best !in EligibleSet(a, skip + more);
  }

  lemma PoisonShrinks(a: Arena, a': Arena, skip: set<nat>, idx: nat, best: nat)
    requires a.Linked() && OnlyFlags(a.nodes, a'.nodes) && idx < |a.nodes|
    requires forall i :: 0 <= i < |a.nodes| ==> (a'.nodes[i].invalid <==> Poisoned(a, idx, i))
    requires Eligible(a, skip, best) && idx in Ancestry(a, best)
    ensures EligibleSet(a', skip) < EligibleSet(a, skip)
  {
    hide Ancestry, Arena.Linked;
    assert best in EligibleSet(a, skip) && best !in EligibleSet(a', skip);
  }

  function Suffix(s: seq<nat>, pos: nat): set<nat>
    requires pos <= |s|
  {
    set x | x in s[pos..]
  }

  /** The first header to apply whose body is missing. */
  method FirstMissing(have: nat -> bool, apply: seq<nat>) returns (pos: Option<nat>)
    ensures pos.None? <==> forall k :: 0 <= k < |apply| ==> have(apply[k])
    ensures pos.Some? ==>
              pos.value < |apply| && !have(apply[pos.value]) && forall k :: 0 <= k < pos.value ==> have(apply[k])
  {
    for k := 0 to |apply|
      invariant forall j :: 0 <= j < k ==> have(apply[j])
    {
      if !have(apply[k]) {
        return Some(k);
      }
    }
    pos := None;
  }

  lemma SameFlags(nodes: seq<Node>)
    ensures OnlyFlags(nodes, nodes)
  {
  }

  // ----- why a header was passed over -----

  /** A body is missing on the way to the header. */
  ghost predicate Lacks(a: Arena, have: nat -> bool, i: nat)
    requires a.Linked()
  {
    i < |a.nodes| && exists m :: m in Ancestry(a, i) && !have(m)
  }

  ghost predicate Ruled(verdict: (nat, nat) -> Verdict, i: nat) { exists round: nat :: verdict(round, i).RuleRefused? }

  /** Every header passed over lacks a body, or was refused by a rule. */
  ghost predicate Excused(a: Arena, have: nat -> bool, verdict: (nat, nat) -> Verdict, refused: set<nat>)
    requires a.Linked()
  {
    forall i :: i in refused ==> Lacks(a, have, i) || Ruled(verdict, i)
  }

  predicate Side(a: Arena, m: nat) { m < |a.nodes| && !a.IsCanonical(m) }

  /** The header a bad branch is blamed on: the one at the position given, or its first. */
  function BadHeader(apply: seq<nat>, pos: nat): nat
    requires apply != []
  {
    apply[if pos < |apply| then pos else 0]
  }

  /** The branch to b was found bad at header m, which is not canonical. */
  ghost predicate Blames(a: Arena, verdict: (nat, nat) -> Verdict, round: nat, b: nat, m: nat)
    requires a.Valid()
  {
    && b < |a.nodes| && verdict(round, b).BranchBad? && Side(a, m)
    && PlanFor(a, b).apply != [] && m == BadHeader(PlanFor(a, b).apply, verdict(round, b).pos)
  }

  /** A side branch was found bad at an ancestor of this header. */
  ghost predicate Blamed(a: Arena, verdict: (nat, nat) -> Verdict, i: nat)
    requires a.Valid() && i < |a.nodes|
  {
    exists round: nat, b: nat, m: nat :: Blames(a, verdict, round, b, m) && m in Ancestry(a, i)
  }

  /** Flags alone changed, and a header is newly invalid only for a bad branch. */
  ghost predicate Condemned(first: Arena, a: Arena, verdict: (nat, nat) -> Verdict)
    requires a.Valid()
  {
    && a.canonical == first.canonical && OnlyFlags(first.nodes, a.nodes)
    && (forall i: nat :: i < |a.nodes| && a.nodes[i].invalid && !first.nodes[i].invalid ==> Blamed(a, verdict, i))
  }

  lemma {:induction false} FlagsKeepAncestry(a: Arena, a': Arena, i: nat)
    requires a.Linked() && a'.Linked() && OnlyFlags(a.nodes, a'.nodes) && i < |a.nodes|
    ensures Ancestry(a', i) == Ancestry(a, i)
    decreases i
  {
    hide Extends;
    if i > 0 {
      FlagsKeepAncestry(a, a', a.nodes[i].prev.value);
    }
  }

  lemma ExcusedStays(a: Arena, a': Arena, have: nat -> bool, verdict: (nat, nat) -> Verdict, refused: set<nat>)
    requires a.Linked() && a'.Linked() && OnlyFlags(a.nodes, a'.nodes) && Excused(a, have, verdict, refused)
    ensures Excused(a', have, verdict, refused)
  {
    hide Ancestry, Arena.Linked, Ruled;
    forall i | i in refused ensures Lacks(a', have, i) || Ruled(verdict, i) {
      if Lacks(a, have, i) {
        FlagsKeepAncestry(a, a', i);
      }
    }
  }

  lemma {:induction false} FlagsKeepFork(a: Arena, a': Arena, i: nat)
    requires a.Valid() && a'.Valid() && a'.canonical == a.canonical && OnlyFlags(a.nodes, a'.nodes) && i < |a.nodes|
    ensures ForkHeight(a', i) == ForkHeight(a, i)
    decreases i
  {
    hide Extends, Arena.Based;
    if !a.IsCanonical(i) {
      FlagsKeepFork(a, a', a.nodes[i].prev.value);
    }
  }

  /** Plans do not depend on flags. */
  lemma FlagsKeepPlan(a: Arena, a': Arena, i: nat)
    requires a.Valid() && a'.Valid() && a'.canonical == a.canonical && OnlyFlags(a.nodes, a'.nodes) && i < |a.nodes|
    ensures PlanFor(a', i) == PlanFor(a, i)
  {
    hide Arena.Linked, Arena.Chained, Arena.Based, Ancestry, ForkHeight;
    FlagsKeepFork(a, a', i);
    FlagsKeepAncestry(a, a', i);
    ForkSplits(a, i);
  }

  lemma BlameStays(a: Arena, a': Arena, verdict: (nat, nat) -> Verdict, round: nat, b: nat, m: nat)
    requires a.Valid() && a'.Valid() && a'.canonical == a.canonical && OnlyFlags(a.nodes, a'.nodes)
    requires Blames(a, verdict, round, b, m)
    ensures Blames(a', verdict, round, b, m)
  {
    hide Arena.Valid, PlanFor;
    FlagsKeepPlan(a, a', b);
  }

  lemma CondemnedStays(first: Arena, a: Arena, a': Arena, verdict: (nat, nat) -> Verdict, round: nat, best: nat,
                       bad: nat)
    requires a.Valid() && a'.Valid() && Condemned(first, a, verdict) && Marks(a, a', bad)
    requires Blames(a, verdict, round, best, bad)
    ensures Condemned(first, a', verdict)
  {
    hide Ancestry, Arena.Linked, Arena.Chained, Arena.Based, Blames;
    BlameStays(a, a', verdict, round, best, bad);
    forall i: nat | i < |a'.nodes| && a'.nodes[i].invalid && !first.nodes[i].invalid ensures Blamed(a', verdict, i) {
      FlagsKeepAncestry(a, a', i);
      if a.nodes[i].invalid {
        var r: nat, b: nat, m: nat :| Blames(a, verdict, r, b, m) && m in Ancestry(a, i);
        BlameStays(a, a', verdict, r, b, m);
        assert m in Ancestry(a', i);
      } else {
        assert bad in Ancestry(a', i);
      }
    }
  }

  /** The headers from the first missing body on lack it. */
  lemma SuffixLacks(a: Arena, have: nat -> bool, best: nat, pos: nat)
    requires a.Valid() && best < |a.nodes| && pos < |PlanFor(a, best).apply| && !have(PlanFor(a, best).apply[pos])
    ensures forall i :: i in Suffix(PlanFor(a, best).apply, pos) ==> Lacks(a, have, i)
  {
    hide Ancestry, ForkHeight, Arena.Linked, Arena.Chained, Arena.Based;
    var f, r := ForkHeight(a, best), Ancestry(a, best);
    ForkSplits(a, best);
    var apply := PlanFor(a, best).apply;
    assert apply == r[f + 1..];
    forall i | i in Suffix(apply, pos) ensures Lacks(a, have, i) {
      var k :| 0 <= k < |apply[pos..]| && apply[pos..][k] == i;
      var at := f + 1 + pos + k;
      assert r[at] == i;
      AncestryPrefix(a, best, at);
      assert r[..at + 1][f + 1 + pos] == apply[pos];
      assert apply[pos] in Ancestry(a, i);
    }
  }

  /** Only flags differ: the header and its descendants are marked. */
  ghost predicate Marks(a: Arena, a': Arena, bad: nat) {
    && a.Linked() && a'.canonical == a.canonical && OnlyFlags(a.nodes, a'.nodes)
    && (forall i :: 0 <= i < |a.nodes| ==> (a'.nodes[i].invalid <==> Poisoned(a, bad, i)))
  }

  /** Marks the header the body check refused; fewer headers are left to choose from. */
  method Condemn(index: HeaderIndex, apply: seq<nat>, pos: nat, best: nat, ghost skip: set<nat>) returns (bad: nat)
    requires index.Valid() && apply != [] && Eligible(index.A(), skip, best)
    requires forall k :: 0 <= k < |apply| ==>
               apply[k] < |index.nodes| && Side(index.A(), apply[k]) && apply[k] in Ancestry(index.A(), best)
    modifies index
    ensures index.Valid() && Marks(old(index.A()), index.A(), bad)
    ensures bad == BadHeader(apply, pos) && Side(old(index.A()), bad)
    ensures EligibleSet(index.A(), skip) < old(EligibleSet(index.A(), skip))
  {
    hide Arena.Valid, Arena.Linked, Ancestry, Eligible, EligibleSet, Poisoned;
    ghost var a := index.A();
    bad := BadHeader(apply, pos);
    var n := index.MarkInvalid(bad);
    ValidLinked(a);
    PoisonShrinks(a, index.A(), skip, bad, best);
  }

  /** What the loop knows when it stops: how the headers passed over are excused, and which flags
      changed. */
  ghost predicate Fair(first: Arena, a: Arena, have: nat -> bool, verdict: (nat, nat) -> Verdict, refused: set<nat>) {
    a.Valid() && Excused(a, have, verdict, refused) && Condemned(first, a, verdict)
  }

  lemma FairStart(a: Arena, have: nat -> bool, verdict: (nat, nat) -> Verdict)
    requires a.Valid()
    ensures Fair(a, a, have, verdict, {})
  {
    hide Arena.Valid, Arena.Linked;
    ValidLinked(a);
    SameFlags(a.nodes);
  }

  lemma FairSkip(first: Arena, a: Arena, have: nat -> bool, verdict: (nat, nat) -> Verdict, refused: set<nat>,
                 best: nat, pos: nat)
    requires Fair(first, a, have, verdict, refused) && best < |a.nodes|
    requires pos < |PlanFor(a, best).apply| && !have(PlanFor(a, best).apply[pos])
    ensures Fair(first, a, have, verdict, refused + Suffix(PlanFor(a, best).apply, pos))
  {
    hide Arena.Linked, Arena.Chained, Arena.Based, PlanFor, Suffix, Lacks, Ruled, Condemned;
    SuffixLacks(a, have, best, pos);
  }

  lemma FairRule(first: Arena, a: Arena, have: nat -> bool, verdict: (nat, nat) -> Verdict, refused: set<nat>,
                 best: nat, round: nat)
    requires Fair(first, a, have, verdict, refused) && verdict(round, best).RuleRefused?
    ensures Fair(first, a, have, verdict, refused + {best})
  {
    hide Arena.Linked, Arena.Chained, Arena.Based, Lacks, Condemned;
    assert Ruled(verdict, best);
  }

  lemma FairBad(first: Arena, a: Arena, a': Arena, have: nat -> bool, verdict: (nat, nat) -> Verdict,
                refused: set<nat>, best: nat, round: nat,
                bad: nat)
    requires Fair(first, a, have, verdict, refused) && a'.Valid() && Marks(a, a', bad)
             && Blames(a, verdict, round, best, bad)
    ensures Fair(first, a', have, verdict, refused)
  {
    hide Arena.Linked, Arena.Chained, Arena.Based, Ancestry, Excused, Condemned, Poisoned, OnlyFlags;
    assert OnlyFlags(a.nodes, a'.nodes);
    ExcusedStays(a, a', have, verdict, refused);
    CondemnedStays(first, a, a', verdict, round, best, bad);
  }

  /** Chooses, plans and adopts until a chain is adopted or nothing better is left. Each round
      that goes on leaves fewer headers to choose from, so the loop ends. What it adopts, or
      stays at, is the best of the headers that were not passed over; every header passed over
      lacks a body or was refused by a rule, and a header is marked only for a bad branch. */
  method Advance(index: HeaderIndex, have: nat -> bool, verdict: (nat, nat) -> Verdict)
      returns (p: Progress, ghost refused: set<nat>, ghost at: Arena)
    requires index.Valid()
    modifies index
    ensures index.Valid() && Fair(old(index.A()), at, have, verdict, refused)
    ensures p == Advanced ==> BetterTip(old(index.A()), index.A()) && Adopted(at, verdict, refused, index.A())
    ensures p != Advanced ==> index.A() == at
    ensures p in {NeedBodies, Refused, NoChange} ==> TipIsBest(at, refused)
    ensures p == NeedBodies ==> exists i :: i in refused && Missing(at, have, i)
    ensures p == Refused ==> exists i :: i in refused && Ruled(verdict, i)
    ensures p == NoChange ==> refused == {}
  {
    hide Arena.Valid, Arena.Linked, Ancestry, IsBest, PlanFor, Eligible, EligibleSet, Poisoned, Better, OnlyFlags,
      Suffix, BetterTip, Switched,
      Fair, Missing, Ruled, TipIsBest, Adopted, Marks, Side;
    var skip: set<nat>, missing, ruled, round := {}, false, false, 0;
    ghost var first := index.A();
    FairStart(first, have, verdict);
    while true
      invariant index.Valid() && Fair(first, index.A(), have, verdict, skip)
      invariant !missing && !ruled ==> skip == {}
      invariant missing ==> exists i :: i in skip && Missing(index.A(), have, i)
      invariant ruled ==> exists i :: i in skip && Ruled(verdict, i)
      decreases EligibleSet(index.A(), skip)
    {
      var best := index.SelectBest(skip);
      at, refused := index.A(), skip;
      BestInRange(at, skip, best);
      var plan := index.PlanReorg(best);
      if plan.None? {
        TipStays(at, skip, best);
        p := if missing then NeedBodies else if ruled then Refused else NoChange;
        return;
      }
      Candidate(at, skip, best);
      var gap := FirstMissing(have, plan.value.apply);
      if gap.Some? {
        SkipShrinks(at, skip, Suffix(plan.value.apply, gap.value), best);
        FairSkip(first, at, have, verdict, skip, best, gap.value);
        SkippedMissing(at, have, best, gap.value);
        skip := skip + Suffix(plan.value.apply, gap.value);
        missing := true;
        continue;
      }
      round := round + 1;
      match verdict(round, best) {
        case Adopt =>
          index.SetCanonical(best);
          FairKeeps(first, at, have, verdict, skip);
          AdoptedBetter(first, at, best);
          AdoptedBest(at, verdict, skip, round, best);
          p := Advanced;
          return;
        case BranchBad(pos) =>
          var bad := Condemn(index, plan.value.apply, pos, best, skip);
          assert Blames(at, verdict, round, best, bad);
          FairBad(first, at, index.A(), have, verdict, skip, best, round, bad);
          MissingStays(at, index.A(), have, skip);
        case RuleRefused =>
          SkipShrinks(at, skip, {best}, best);
          FairRule(first, at, have, verdict, skip, best, round);
          RuledNow(verdict, round, best);
          skip := skip + {best};
          ruled := true;
        case OwnChainBad =>
          p := Failed;
          return;
        case Stopped =>
          p := Failed;
          return;
      }
    }
  }

  /** The chain after adopting: switched to the best header that was not passed over, whose
      branch was found good. */
  ghost predicate Adopted(at: Arena, verdict: (nat, nat) -> Verdict, refused: set<nat>, a: Arena) {
    at.Valid() && exists round: nat, best: nat :: Chosen(at, verdict, refused, round, best) && a == Switched(at, best)
  }

  ghost predicate Chosen(at: Arena, verdict: (nat, nat) -> Verdict, refused: set<nat>, round: nat, best: nat)
    requires at.Valid()
  {
    best < |at.nodes| && IsBest(at, refused, best) && verdict(round, best).Adopt?
  }

  lemma AdoptedBest(at: Arena, verdict: (nat, nat) -> Verdict, refused: set<nat>, round: nat, best: nat)
    requires at.Valid() && best < |at.nodes| && IsBest(at, refused, best) && verdict(round, best).Adopt?
    ensures Adopted(at, verdict, refused, Switched(at, best))
  {
    hide Arena.Linked, Arena.Chained, Arena.Based, IsBest, Switched;
    assert Chosen(at, verdict, refused, round, best);
  }

  ghost predicate Missing(a: Arena, have: nat -> bool, i: nat) { a.Linked() && Lacks(a, have, i) }

  lemma SkippedMissing(a: Arena, have: nat -> bool, best: nat, pos: nat)
    requires a.Valid() && best < |a.nodes| && pos < |PlanFor(a, best).apply| && !have(PlanFor(a, best).apply[pos])
    requires best in Suffix(PlanFor(a, best).apply, pos)
    ensures Missing(a, have, best)
  {
    hide Arena.Linked, Arena.Chained, Arena.Based, PlanFor, Suffix, Lacks;
    SuffixLacks(a, have, best, pos);
  }

  lemma MissingStays(a: Arena, a': Arena, have: nat -> bool, skip: set<nat>)
    requires a.Valid() && a'.Valid() && exists bad :: Marks(a, a', bad)
    ensures forall i :: i in skip && Missing(a, have, i) ==> Missing(a', have, i)
  {
    hide Arena.Linked, Arena.Chained, Arena.Based, Ancestry;
    forall i | i in skip && Missing(a, have, i) ensures Missing(a', have, i) {
      FlagsKeepAncestry(a, a', i);
    }
  }

  lemma RuledNow(verdict: (nat, nat) -> Verdict, round: nat, i: nat)
    requires verdict(round, i).RuleRefused?
    ensures Ruled(verdict, i)
  {
  }

  lemma FairKeeps(first: Arena, a: Arena, have: nat -> bool, verdict: (nat, nat) -> Verdict, refused: set<nat>)
    requires Fair(first, a, have, verdict, refused)
    ensures a.Valid() && a.canonical == first.canonical && OnlyFlags(first.nodes, a.nodes)
  {
    hide Arena.Linked, Arena.Chained, Arena.Based, Excused, OnlyFlags;
  }

  lemma TipStays(a: Arena, skip: set<nat>, best: nat)
    requires a.Valid() && IsBest(a, skip, best) && best == a.Tip()
    ensures TipIsBest(a, skip)
  {
    hide Arena.Linked, Arena.Chained, Arena.Based, IsBest;
  }

  ghost predicate BetterTip(a: Arena, a': Arena) {
    && a.Valid() && a'.Valid() && |a'.nodes| == |a.nodes|
    && Better(a'.nodes[a'.Tip()], a.nodes[a.Tip()])
  }

  ghost predicate TipIsBest(a: Arena, skip: set<nat>) { a.Valid() && IsBest(a, skip, a.Tip()) }

  lemma ValidLinked(a: Arena)
    requires a.Valid()
    ensures a.Linked()
  {
  }

  lemma BestInRange(a: Arena, skip: set<nat>, best: nat)
    requires a.Valid() && IsBest(a, skip, best)
    ensures best < |a.nodes|
  {
  }

  lemma AdoptedBetter(first: Arena, a: Arena, best: nat)
    requires first.Valid() && a.Valid() && a.canonical == first.canonical && OnlyFlags(first.nodes, a.nodes)
    requires best < |a.nodes| && Better(a.nodes[best], a.nodes[a.Tip()])
    ensures BetterTip(first, Switched(a, best))
  {
    hide Arena.Linked, Arena.Chained, Arena.Based, Ancestry, Switched;
    SwitchedValid(a, best);
  }

  /** A header fork choice prefers to the tip: eligible, better, and its plan leads to it. */
  lemma Candidate(a: Arena, skip: set<nat>, best: nat)
    requires a.Valid() && IsBest(a, skip, best) && best != a.Tip()
    ensures Eligible(a, skip, best) && Better(a.nodes[best], a.nodes[a.Tip()])
    ensures var apply := PlanFor(a, best).apply;
            && apply != [] && apply[|apply| - 1] == best
            && (forall k :: 0 <= k < |apply| ==>
                  apply[k] < |a.nodes| && Side(a, apply[k]) && apply[k] in Ancestry(a, best))
            && (forall pos :: 0 <= pos < |apply| ==> best in Suffix(apply, pos))
  {
    hide Arena.Linked, Arena.Chained, Arena.Based, Ancestry, PlanFor;
    BestIsBetter(a, skip, best);
    PlanLinks(a, best);
    var apply := PlanFor(a, best).apply;
    forall pos | 0 <= pos < |apply| ensures best in Suffix(apply, pos) {
      assert apply[pos..][|apply| - 1 - pos] == best;
    }
    var r := Ancestry(a, best);
    forall k | 0 <= k < |apply| ensures Side(a, apply[k]) && apply[k] in r {
      assert r[PlanFor(a, best).forkHeight + 1 + k] == apply[k];
    }
  }
}
