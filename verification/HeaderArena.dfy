/** The header arena: headers linked to their parents, one canonical chain among them. */
module HeaderArena {
  import opened Wrappers

  /** Hashes are compared as big-endian numbers, which is how their bytes compare. */
  datatype Node = Node(
    hash: nat, prev: Option<nat>, height: nat, time: nat, work: nat, base: nat,
    powOk: bool, invalid: bool, haveBody: bool)

  datatype Arena = Arena(nodes: seq<Node>, canonical: seq<nat>) {
    /** Every header but the first is stored after its parent, one higher, with more work; a
        header with an invalid parent is invalid; no hash occurs twice. */
    predicate Linked() {
      && |nodes| > 0 && nodes[0].prev == None && nodes[0].height == 0
      && (forall i :: 0 < i < |nodes| ==> nodes[i].prev.Some? && nodes[i].prev.value < i)
      && (forall i :: 0 < i < |nodes| ==> Extends(nodes[nodes[i].prev.value], nodes[i]))
      && (forall i, j :: 0 <= i < j < |nodes| ==> nodes[i].hash != nodes[j].hash)
    }

    /** The canonical chain is a chain from the first header. */
    predicate Chained()
      requires Linked()
    {
      && |canonical| > 0 && canonical[0] == 0
      && (forall k :: 0 <= k < |canonical| ==> canonical[k] < |nodes| && nodes[canonical[k]].height == k)
      && (forall k :: 0 < k < |canonical| ==> nodes[canonical[k]].prev == Some(canonical[k - 1]))
    }

    predicate IsCanonical(i: nat)
      requires i < |nodes|
    {
      nodes[i].height < |canonical| && canonical[nodes[i].height] == i
    }

    /** The recorded fork base: the last height the branch shares with the canonical chain. */
    predicate Based()
      requires Linked()
    {
      && nodes[0].base == 0
      && (forall i :: 0 < i < |nodes| ==>
            var p := nodes[i].prev.value;
            nodes[i].base == if IsCanonical(p) then nodes[p].height else nodes[p].base)
    }

    predicate Valid() { Linked() && Chained() && Based() }

    function Tip(): (t: nat)
      requires Valid()
      ensures t < |nodes|
    {
      canonical[|canonical| - 1]
    }
  }

  predicate Extends(p: Node, n: Node) { n.height == p.height + 1 && n.work > p.work && (p.invalid ==> n.invalid) }

  // ----- ancestry -----

  /** The chain from the first header to header i. */
  function Ancestry(a: Arena, i: nat): (r: seq<nat>)
    requires a.Linked() && i < |a.nodes|
    ensures |r| > 0 && r[|r| - 1] == i
    decreases i
  {
    if i == 0 then [0] else Ancestry(a, a.nodes[i].prev.value) + [i]
  }

  lemma ParentOf(a: Arena, i: nat)
    requires a.Linked() && 0 < i < |a.nodes|
    ensures a.nodes[i].prev.Some? && a.nodes[i].prev.value < i && Extends(a.nodes[a.nodes[i].prev.value], a.nodes[i])
    ensures Ancestry(a, i) == Ancestry(a, a.nodes[i].prev.value) + [i]
  {
  }

  lemma {:induction false} AncestryChain(a: Arena, i: nat)
    requires a.Linked() && i < |a.nodes|
    ensures var r := Ancestry(a, i);
            && |r| == a.nodes[i].height + 1 && r[0] == 0
            && (forall k :: 0 <= k < |r| ==> r[k] <= i && a.nodes[r[k]].height == k)
            && (forall k :: 0 < k < |r| ==> a.nodes[r[k]].prev == Some(r[k - 1]))
            && (forall k :: 0 <= k < |r| - 1 ==> a.nodes[r[k]].work < a.nodes[i].work)
    decreases i
  {
    if i > 0 {
      AncestryChain(a, a.nodes[i].prev.value);
    }
  }

  lemma {:induction false} AncestryPrefix(a: Arena, i: nat, k: nat)
    requires a.Linked() && i < |a.nodes| && k <= a.nodes[i].height
    ensures |Ancestry(a, i)| == a.nodes[i].height + 1 && Ancestry(a, i)[k] < |a.nodes|
    ensures Ancestry(a, Ancestry(a, i)[k]) == Ancestry(a, i)[..k + 1]
    decreases i
  {
    AncestryChain(a, i);
    var r := Ancestry(a, i);
    if k == a.nodes[i].height {
      assert r[..k + 1] == r;
    } else {
      var p := a.nodes[i].prev.value;
      AncestryPrefix(a, p, k);
      AncestryChain(a, p);
      assert r[..k + 1] == Ancestry(a, p)[..k + 1];
    }
  }

  lemma CanonicalStep(a: Arena, k: nat)
    requires a.Linked() && a.Chained() && 0 < k < |a.canonical|
    ensures 0 < a.canonical[k] < |a.nodes| && a.nodes[a.canonical[k]].prev == Some(a.canonical[k - 1])
  {
    hide Extends;
  }

  /** The canonical chain is the ancestry of its tip. */
  lemma {:induction false} CanonicalIsAncestry(a: Arena, k: nat)
    requires a.Linked() && a.Chained() && k < |a.canonical|
    ensures Ancestry(a, a.canonical[k]) == a.canonical[..k + 1]
    decreases k
  {
    if k == 0 {
      assert a.canonical[..1] == [0];
    } else {
      CanonicalIsAncestry(a, k - 1);
      CanonicalStep(a, k);
      hide Arena.Linked, Arena.Chained, Ancestry;
      ParentOf(a, a.canonical[k]);
      assert a.canonical[..k + 1] == a.canonical[..k] + [a.canonical[k]];
    }
  }

  lemma {:induction false} InvalidDown(a: Arena, i: nat, k: nat)
    requires a.Linked() && i < |a.nodes| && k < |Ancestry(a, i)|
    ensures Ancestry(a, i)[k] < |a.nodes| && (a.nodes[Ancestry(a, i)[k]].invalid ==> a.nodes[i].invalid)
    decreases i
  {
    if i > 0 && k < |Ancestry(a, i)| - 1 {
      InvalidDown(a, a.nodes[i].prev.value, k);
    }
  }

  // ----- fork choice -----

  /** More work wins; equal work goes to the lower hash. */
  predicate Better(n: Node, b: Node) { n.work > b.work || (n.work == b.work && n.hash < b.hash) }

  predicate Eligible(a: Arena, skip: set<nat>, i: nat) {
    i < |a.nodes| && i !in skip && !a.nodes[i].invalid && a.nodes[i].powOk
  }

  /** The tip or an eligible header, and none of those is better. */
  ghost predicate IsBest(a: Arena, skip: set<nat>, r: nat)
    requires a.Valid()
  {
    && r < |a.nodes| && (r == a.Tip() || Eligible(a, skip, r))
    && !Better(a.nodes[a.Tip()], a.nodes[r])
    && (forall i: nat :: Eligible(a, skip, i) ==> !Better(a.nodes[i], a.nodes[r]))
  }

  /** There is only one, so the order of the arena plays no part. */
  lemma BestUnique(a: Arena, skip: set<nat>, r: nat, r': nat)
    requires a.Valid() && IsBest(a, skip, r) && IsBest(a, skip, r')
    ensures r == r'
  {
    assert !Better(a.nodes[r], a.nodes[r']) && !Better(a.nodes[r'], a.nodes[r]);
  }

  datatype Plan = Plan(forkHeight: nat, rollback: seq<nat>, apply: seq<nat>, depth: nat)

  /** The last header of the ancestry of i that is canonical: its height. */
  function ForkHeight(a: Arena, i: nat): (h: nat)
    requires a.Valid() && i < |a.nodes|
    ensures h < |a.canonical| && h <= a.nodes[i].height
    decreases i
  {
    if a.IsCanonical(i) then a.nodes[i].height
    else
      assert i != 0;
      ForkHeight(a, a.nodes[i].prev.value)
  }

  /** The old and the new chain agree up to the fork and nowhere above it. */
  lemma {:induction false} ForkSplits(a: Arena, i: nat)
    requires a.Valid() && i < |a.nodes|
    ensures var f, r := ForkHeight(a, i), Ancestry(a, i);
            && |r| == a.nodes[i].height + 1 && r[..f + 1] == a.canonical[..f + 1]
            && (forall k :: f < k < |r| ==> r[k] < |a.nodes| && !a.IsCanonical(r[k]))
    decreases i
  {
    hide Arena.Linked, Arena.Chained, Arena.Based, Ancestry;
    AncestryChain(a, i);
    var r := Ancestry(a, i);
    if a.IsCanonical(i) {
      CanonicalIsAncestry(a, a.nodes[i].height);
      assert r[..|r|] == r;
    } else {
      FirstIsCanonical(a);
      ParentOf(a, i);
      var p, f := a.nodes[i].prev.value, ForkHeight(a, i);
      ForkSplits(a, p);
      AncestryChain(a, p);
      assert r[..f + 1] == Ancestry(a, p)[..f + 1];
    }
  }

  lemma FirstIsCanonical(a: Arena)
    requires a.Linked() && a.Chained()
    ensures a.IsCanonical(0)
  {
  }

  /** The recorded base of a header off the canonical chain is the height of its fork. */
  lemma {:induction false} BaseIsFork(a: Arena, i: nat)
    requires a.Valid() && i < |a.nodes| && !a.IsCanonical(i)
    ensures a.nodes[i].base == ForkHeight(a, i)
    decreases i
  {
    assert i != 0;
    var p := a.nodes[i].prev.value;
    if !a.IsCanonical(p) {
      BaseIsFork(a, p);
    }
  }

  function Descending(hi: nat, lo: nat): (s: seq<nat>)
    requires lo <= hi
    ensures |s| == hi - lo && forall k :: 0 <= k < |s| ==> s[k] == hi - k
  {
    seq(hi - lo, k requires 0 <= k < hi - lo => hi - k)
  }

  /** What a plan for `best` must be: roll the canonical heights above the fork back, top
      down, and apply the rest of best's ancestry. */
  function PlanFor(a: Arena, best: nat): Plan
    requires a.Valid() && best < |a.nodes|
  {
    var f, tip := ForkHeight(a, best), a.nodes[a.Tip()].height;
    ForkSplits(a, best);
    Plan(f, Descending(tip, f), Ancestry(a, best)[f + 1..], tip - f)
  }

  /** The headers to apply follow one another from the fork. */
  ghost predicate FollowsFork(a: Arena, fork: nat, apply: seq<nat>) {
    && fork < |a.canonical|
    && (forall k :: 0 <= k < |apply| ==> apply[k] < |a.nodes|)
    && (forall k :: 0 <= k < |apply| ==>
          a.nodes[apply[k]].prev == Some(if k == 0 then a.canonical[fork] else apply[k - 1]))
  }

  /** A plan for a better header: something to apply, linked parent to child from the fork to
      best, none of it canonical; the chain after it is best's ancestry. */
  lemma PlanLinks(a: Arena, best: nat)
    requires a.Valid() && best < |a.nodes| && Better(a.nodes[best], a.nodes[a.Tip()])
    ensures var p := PlanFor(a, best);
            && p.apply != [] && p.apply[|p.apply| - 1] == best
            && FollowsFork(a, p.forkHeight, p.apply)
            && (forall k :: 0 <= k < |p.apply| ==> !a.IsCanonical(p.apply[k]))
            && a.canonical[..p.forkHeight + 1] + p.apply == Ancestry(a, best)
  {
    hide Arena.Linked, Arena.Chained, Arena.Based, Ancestry, ForkHeight, Arena.IsCanonical;
    var f, r := ForkHeight(a, best), Ancestry(a, best);
    ForkSplits(a, best);
    if f == a.nodes[best].height {
      WholeAncestry(a, best);
      CanonicalNotBetter(a, best);
    }
    assert r[..f + 1] + r[f + 1..] == r;
    AncestrySuffix(a, best, f);
  }

  lemma AncestrySuffix(a: Arena, i: nat, f: nat)
    requires a.Linked() && i < |a.nodes| && f < |a.canonical| && f <= a.nodes[i].height
    requires |Ancestry(a, i)| == a.nodes[i].height + 1 && Ancestry(a, i)[..f + 1] == a.canonical[..f + 1]
    ensures FollowsFork(a, f, Ancestry(a, i)[f + 1..])
  {
    hide Arena.Linked, Ancestry;
    AncestryChain(a, i);
    var r := Ancestry(a, i);
    var apply := r[f + 1..];
    assert r[f] == r[..f + 1][f] == a.canonical[f];
    forall k | 0 <= k < |apply|
      ensures apply[k] < |a.nodes| && a.nodes[apply[k]].prev == Some(if k == 0 then a.canonical[f] else apply[k - 1])
    {
      assert apply[k] == r[f + 1 + k];
    }
  }

  lemma WholeAncestry(a: Arena, i: nat)
    requires a.Valid() && i < |a.nodes| && ForkHeight(a, i) == a.nodes[i].height
    ensures a.IsCanonical(i)
  {
    hide Arena.Linked, Arena.Chained, Arena.Based, Ancestry;
    if !a.IsCanonical(i) {
      FirstIsCanonical(a);
      ParentOf(a, i);
    }
  }

  /** No canonical header is better than the tip. */
  lemma CanonicalNotBetter(a: Arena, i: nat)
    requires a.Valid() && i < |a.nodes| && a.IsCanonical(i)
    ensures !Better(a.nodes[i], a.nodes[a.Tip()])
  {
    hide Arena.Linked, Arena.Based, Ancestry;
    CanonicalIsAncestry(a, |a.canonical| - 1);
    assert a.canonical[..|a.canonical|] == a.canonical;
    hide Arena.Chained;
    AncestryChain(a, a.Tip());
    assert Ancestry(a, a.Tip())[a.nodes[i].height] == i;
  }

  lemma BestIsBetter(a: Arena, skip: set<nat>, r: nat)
    requires a.Valid() && IsBest(a, skip, r) && r != a.Tip()
    ensures Better(a.nodes[r], a.nodes[a.Tip()])
  {
    assert a.nodes[r].hash != a.nodes[a.Tip()].hash;
  }

  // ----- switching -----

  /** The fork bases after the canonical chain changed. */
  function Rebased(nodes: seq<Node>, canonical: seq<nat>, n: nat): (r: seq<Node>)
    requires n <= |nodes| && forall i :: 0 < i < |nodes| ==> nodes[i].prev.Some? && nodes[i].prev.value < i
    ensures |r| == n
    ensures forall i :: 0 <= i < n ==> r[i] == nodes[i].(base := r[i].base)
  {
    if n == 0 then []
    else
      var r := Rebased(nodes, canonical, n - 1);
      var node := nodes[n - 1];
      var base := if n == 1 then node.height
                  else
                    var p := node.prev.value;
                    if r[p].height < |canonical| && canonical[r[p].height] == p then r[p].height else r[p].base;
      r + [node.(base := base)]
  }

  function Switched(a: Arena, best: nat): Arena
    requires a.Valid() && best < |a.nodes|
  {
    Arena(RebasedAll(a, Ancestry(a, best)), Ancestry(a, best))
  }

  function RebasedAll(a: Arena, chain: seq<nat>): seq<Node>
    requires a.Linked()
  {
    Rebased(a.nodes, chain, |a.nodes|)
  }

  /** Only bases differ. */
  ghost predicate SameLinks(nodes: seq<Node>, nodes': seq<Node>) {
    |nodes'| == |nodes| && forall i :: 0 <= i < |nodes| ==> nodes'[i] == nodes[i].(base := nodes'[i].base)
  }

  lemma LinkedAgain(a: Arena, a': Arena)
    requires a.Linked() && SameLinks(a.nodes, a'.nodes)
    ensures a'.Linked()
  {
  }

  lemma {:induction false} SameAncestry(a: Arena, a': Arena, i: nat)
    requires a.Linked() && a'.Linked() && SameLinks(a.nodes, a'.nodes) && i < |a.nodes|
    ensures Ancestry(a', i) == Ancestry(a, i)
    decreases i
  {
    if i > 0 {
      SameAncestry(a, a', a.nodes[i].prev.value);
    }
  }

  lemma {:induction false} RebasedBases(nodes: seq<Node>, canonical: seq<nat>, n: nat)
    requires n <= |nodes| && forall i :: 0 < i < |nodes| ==> nodes[i].prev.Some? && nodes[i].prev.value < i
    ensures var r := Rebased(nodes, canonical, n);
            && (n > 0 ==> r[0].base == nodes[0].height)
            && (forall i :: 0 < i < n ==>
                  var p := nodes[i].prev.value;
                  r[i].base == if r[p].height < |canonical| && canonical[r[p].height] == p then r[p].height
                               else r[p].base)
  {
    if n > 0 {
      RebasedBases(nodes, canonical, n - 1);
    }
  }

  lemma SwitchedChained(a: Arena, best: nat)
    requires a.Valid() && best < |a.nodes|
    ensures Switched(a, best).Linked() && Switched(a, best).Chained() && SameLinks(a.nodes, Switched(a, best).nodes)
  {
    hide Ancestry;
    LinkedAgain(a, Switched(a, best));
    AncestryChain(a, best);
  }

  lemma SwitchedBased(a: Arena, best: nat)
    requires a.Valid() && best < |a.nodes| && Switched(a, best).Linked()
    ensures Switched(a, best).Based()
  {
    hide Ancestry, Rebased;
    RebasedBases(a.nodes, Ancestry(a, best), |a.nodes|);
  }

  /** Switching to any header leaves a valid arena with that header as its tip. */
  lemma SwitchedValid(a: Arena, best: nat)
    requires a.Valid() && best < |a.nodes|
    ensures Switched(a, best).Valid() && Switched(a, best).Tip() == best && SameLinks(a.nodes, Switched(a, best).nodes)
  {
    hide Arena.Linked, Arena.Chained, Arena.Based, Ancestry, RebasedAll, SameLinks;
    SwitchedChained(a, best);
    SwitchedBased(a, best);
  }

  /** After the switch fork choice has nowhere further to go. */
  lemma NoFurtherMove(a: Arena, skip: set<nat>, best: nat, next: nat)
    requires a.Valid() && IsBest(a, skip, best)
    requires Switched(a, best).Valid() && IsBest(Switched(a, best), skip, next)
    ensures next == best == Switched(a, best).Tip()
  {
    SwitchedValid(a, best);
    var a' := Switched(a, best);
    forall i: nat | Eligible(a', skip, i) ensures !Better(a'.nodes[i], a'.nodes[best]) {
      assert Eligible(a, skip, i);
    }
    BestUnique(a', skip, best, next);
  }
}
