/** The header index as it runs, and fork choice over it. */
module ForkChoice {
  import opened Wrappers
  import opened HeaderArena

  /** The header's own fields, as admission hands them over. */
  datatype HeaderRec = HeaderRec(hash: nat, height: nat, time: nat)

  /** Work of a header with a given target: 2^256 / (target + 1). */
  function WorkOf(target: nat, space: nat): nat { space / (target + 1) }

  /** A target below 2^256 is worth at least one, so work grows along every branch. */
  lemma WorkIsPositive(target: nat, space: nat)
    requires target < space
    ensures WorkOf(target, space) >= 1
  {
    var d, q, r := target + 1, WorkOf(target, space), space % (target + 1);
    assert space == d * q + r;
    assert d * q > 0;
  }

  // ----- marking invalid -----

  /** Invalid before, or idx is among its ancestors. */
  ghost predicate Poisoned(a: Arena, idx: nat, i: nat)
    requires a.Linked() && i < |a.nodes|
  {
    a.nodes[i].invalid || idx in Ancestry(a, i)
  }

  lemma PoisonStep(a: Arena, idx: nat, i: nat)
    requires a.Linked() && 0 < i < |a.nodes| && i != idx
    ensures a.nodes[i].prev.Some? && a.nodes[i].prev.value < i
    ensures Poisoned(a, idx, i) <==> a.nodes[i].invalid || Poisoned(a, idx, a.nodes[i].prev.value)
  {
    hide Ancestry;
    ParentOf(a, i);
  }

  /** Before the pass only the header itself is marked. */
  lemma Marked(a: Arena, idx: nat)
    requires a.Linked() && idx < |a.nodes|
    ensures Poisoned(a, idx, idx)
    ensures forall i :: 0 <= i < idx ==> (a.nodes[i].invalid <==> Poisoned(a, idx, i))
  {
    hide Arena.Linked, Ancestry;
    forall i | 0 <= i < idx ensures a.nodes[i].invalid <==> Poisoned(a, idx, i) {
      NotYetPoisoned(a, idx, i);
    }
  }

  lemma {:induction false} NotYetPoisoned(a: Arena, idx: nat, i: nat)
    requires a.Linked() && i < |a.nodes| && i < idx
    ensures idx !in Ancestry(a, i)
  {
    AncestryChain(a, i);
  }

  /** Only invalid flags differ. */
  ghost predicate OnlyFlags(nodes: seq<Node>, nodes': seq<Node>) {
    |nodes'| == |nodes| && forall i :: 0 <= i < |nodes| ==> nodes'[i] == nodes[i].(invalid := nodes'[i].invalid)
  }

  /** The headers other than idx that turned invalid. */
  ghost function Newly(nodes: seq<Node>, nodes': seq<Node>, idx: nat): set<nat>
    requires |nodes'| == |nodes|
  {
    set i: nat | i < |nodes| && i != idx && nodes'[i].invalid && !nodes[i].invalid
  }

  lemma OneMoreInvalid(nodes: seq<Node>, now: seq<Node>, idx: nat, i: nat)
    requires |now| == |nodes| && idx < i < |nodes| && !now[i].invalid && !nodes[i].invalid
    ensures |Newly(nodes, now[i := now[i].(invalid := true)], idx)| == |Newly(nodes, now, idx)| + 1
  {
    var next := now[i := now[i].(invalid := true)];
    assert Newly(nodes, next, idx) == Newly(nodes, now, idx) + {i};
  }

  lemma NoneNewly(nodes: seq<Node>, idx: nat)
    requires idx < |nodes|
    ensures Newly(nodes, nodes[idx := nodes[idx].(invalid := true)], idx) == {}
  {
  }

  class HeaderIndex {
    var nodes: seq<Node>
    var byHash: map<nat, nat>
    var canonical: seq<nat>

    ghost function A(): Arena
      reads this
    {
      Arena(nodes, canonical)
    }

    ghost predicate Valid()
      reads this
    {
      && A().Valid()
      && (forall i :: 0 <= i < |nodes| ==> nodes[i].hash in byHash && byHash[nodes[i].hash] == i)
      && (forall h :: h in byHash ==> byHash[h] < |nodes| && nodes[byHash[h]].hash == h)
    }

    constructor (rec: HeaderRec, work: nat)
      requires rec.height == 0
      ensures Valid() && nodes == [Node(rec.hash, None, 0, rec.time, work, 0, true, false, true)] && canonical == [0]
    {
      nodes := [Node(rec.hash, None, 0, rec.time, work, 0, true, false, true)];
      byHash := map[rec.hash := 0];
      canonical := [0];
    }

    method TipIndex() returns (t: nat)
      requires Valid()
      ensures t == A().Tip()
    {
      t := canonical[|canonical| - 1];
    }

    predicate IsCanonical(i: nat)
      reads this
      requires i < |nodes|
    {
      nodes[i].height < |canonical| && canonical[nodes[i].height] == i
    }

    /** A known hash is returned as it is; a new header is invalid from birth when its parent
        is, and records where its branch left the canonical chain. */
    method Insert(rec: HeaderRec, parent: nat, cumWork: nat, powOk: bool) returns (idx: nat)
      requires Valid() && parent < |nodes|
      requires rec.height == nodes[parent].height + 1 && cumWork > nodes[parent].work
      modifies this
      ensures Valid() && canonical == old(canonical)
      ensures rec.hash in old(byHash) ==> idx == old(byHash[rec.hash]) && nodes == old(nodes)
      ensures rec.hash !in old(byHash) ==>
                && idx == |old(nodes)| && |nodes| == idx + 1 && nodes[..idx] == old(nodes)
                && nodes[idx].hash == rec.hash && nodes[idx].prev == Some(parent) && nodes[idx].work == cumWork
                && nodes[idx].height == rec.height && nodes[idx].time == rec.time
                && nodes[idx].powOk == powOk && nodes[idx].invalid == nodes[parent].invalid && !nodes[idx].haveBody
    {
      hide Arena.Linked, Arena.Chained, Arena.Based;
      if rec.hash in byHash {
        return byHash[rec.hash];
      }
      var p := nodes[parent];
      var base := if IsCanonical(parent) then p.height else p.base;
      idx := |nodes|;
      ghost var before := A();
      nodes := nodes + [Node(rec.hash, Some(parent), rec.height, rec.time, cumWork, base, powOk, p.invalid, false)];
      byHash := byHash[rec.hash := idx];
      Grown(before, A());
    }

    /** One forward pass poisons exactly the header and its descendants. */
    method MarkInvalid(idx: nat) returns (poisoned: nat)
      requires Valid() && idx < |nodes|
      modifies this`nodes
      ensures Valid() && OnlyFlags(old(nodes), nodes)
      ensures forall i :: 0 <= i < |nodes| ==> (nodes[i].invalid <==> Poisoned(old(A()), idx, i))
      ensures poisoned == |Newly(old(nodes), nodes, idx)|
    {
      hide Newly, Arena.Linked, Arena.Chained, Arena.Based, Poisoned;
      ghost var a := A();
      Marked(a, idx);
      NoneNewly(nodes, idx);
      nodes := nodes[idx := nodes[idx].(invalid := true)];
      poisoned := 0;
      for i := idx + 1 to |nodes|
        invariant OnlyFlags(a.nodes, nodes)
        invariant forall j :: 0 <= j < i ==> (nodes[j].invalid <==> Poisoned(a, idx, j))
        invariant forall j :: i <= j < |nodes| ==> nodes[j] == a.nodes[j]
        invariant poisoned == |Newly(a.nodes, nodes, idx)|
      {
        PoisonStep(a, idx, i);
        var prev := nodes[i].prev;
        if prev.Some? && nodes[prev.value].invalid && !nodes[i].invalid {
          OneMoreInvalid(a.nodes, nodes, idx, i);
          nodes := nodes[i := nodes[i].(invalid := true)];
          poisoned := poisoned + 1;
        }
      }
      StillValid(a, A(), idx);
    }

    /** Every fork base recomputed in one forward pass. */
    method Rebase()
      requires forall i :: 0 < i < |nodes| ==> nodes[i].prev.Some? && nodes[i].prev.value < i
      requires |nodes| > 0 ==> nodes[0].prev == None
      modifies this`nodes
      ensures nodes == Rebased(old(nodes), canonical, |old(nodes)|)
    {
      ghost var was := nodes;
      var i := 0;
      while i < |nodes|
        invariant i <= |nodes| == |was| && nodes[..i] == Rebased(was, canonical, i)
        invariant forall j :: i <= j < |nodes| ==> nodes[j] == was[j]
      {
        ghost var done := nodes[..i];
        var base := nodes[i].height;
        if nodes[i].prev.Some? {
          var at := nodes[i].prev.value;
          assert nodes[at] == done[at];
          base := if nodes[at].height < |canonical| && canonical[nodes[at].height] == at then nodes[at].height
                  else nodes[at].base;
        }
        nodes := nodes[i := nodes[i].(base := base)];
        assert nodes[..i + 1] == done + [nodes[i]];
        i := i + 1;
      }
      assert nodes[..i] == nodes;
    }

    /** The new canonical chain, and the fork bases that go with it. */
    method SetCanonical(best: nat)
      requires Valid() && best < |nodes|
      modifies this
      ensures Valid() && A() == Switched(old(A()), best)
    {
      hide Arena.Linked, Arena.Chained, Arena.Based, Ancestry, Switched, Rebased;
      ghost var a := A();
      HasParents(a);
      canonical := AncestryOf(best);
      Rebase();
      SwitchedValid(a, best);
      SwitchedIs(a, best);
    }

    /** The chain from the first header, collected backwards and reversed. */
    method AncestryOf(idx: nat) returns (r: seq<nat>)
      requires Valid() && idx < |nodes|
      ensures r == Ancestry(A(), idx)
    {
      hide Ancestry, Arena.Linked, Arena.Chained, Arena.Based;
      var cur: nat := idx;
      r := [];
      HasParents(A());
      AncestryStart(A());
      while nodes[cur].prev.Some?
        invariant cur < |nodes| && Ancestry(A(), cur) + r == Ancestry(A(), idx)
        decreases cur
      {
        assert cur != 0;
        ParentOf(A(), cur);
        assert Ancestry(A(), nodes[cur].prev.value) + ([cur] + r) == Ancestry(A(), cur) + r;
        r := [cur] + r;
        cur := nodes[cur].prev.value;
      }
      OnlyFirst(A(), cur);
      r := [cur] + r;
    }

    /** Fork choice: the best of the tip and the eligible headers that are not skipped. */
    method SelectBest(skip: set<nat>) returns (best: nat)
      requires Valid()
      ensures IsBest(A(), skip, best)
    {
      hide Arena.Linked, Arena.Chained, Arena.Based;
      best := TipIndex();
      for i := 0 to |nodes|
        invariant best < |nodes| && (best == A().Tip() || Eligible(A(), skip, best))
        invariant !Better(nodes[A().Tip()], nodes[best])
        invariant forall j: nat :: j < i && Eligible(A(), skip, j) ==> !Better(nodes[j], nodes[best])
      {
        if i !in skip && !nodes[i].invalid && nodes[i].powOk && Better(nodes[i], nodes[best]) {
          best := i;
        }
      }
    }

    /** From a header down to the canonical chain: the headers passed, and where it ends. */
    method WalkDown(best: nat) returns (branch: seq<nat>, cur: nat)
      requires Valid() && best < |nodes|
      ensures cur < |nodes| && IsCanonical(cur) && ForkHeight(A(), cur) == ForkHeight(A(), best)
      ensures Ancestry(A(), cur) + branch == Ancestry(A(), best)
    {
      hide Ancestry, ForkHeight, Arena.Linked, Arena.Chained, Arena.Based;
      branch, cur := [], best;
      while !IsCanonical(cur)
        invariant cur < |nodes| && Ancestry(A(), cur) + branch == Ancestry(A(), best)
        invariant ForkHeight(A(), cur) == ForkHeight(A(), best)
        decreases cur
      {
        FirstIsCanonical(A());
        ParentOf(A(), cur);
        ForkStep(A(), cur);
        var prev: nat := nodes[cur].prev.value;
        Shift(Ancestry(A(), prev), cur, branch);
        branch := [cur] + branch;
        cur := prev;
      }
    }

    /** No plan for the tip; for any other header the walk down to the canonical chain. */
    method PlanReorg(best: nat) returns (plan: Option<Plan>)
      requires Valid() && best < |nodes|
      ensures best == A().Tip() ==> plan == None
      ensures best != A().Tip() ==> plan == Some(PlanFor(A(), best))
    {
      hide Ancestry, ForkHeight, Arena.Linked, Arena.Chained, Arena.Based;
      var tip := TipIndex();
      if best == tip {
        return None;
      }
      var branch, cur := WalkDown(best);
      ForkStep(A(), cur);
      AncestryChain(A(), cur);
      TipHeight(A());
      var fork, top := nodes[cur].height, nodes[tip].height;
      assert branch == Ancestry(A(), best)[fork + 1..];
      plan := Some(Plan(fork, Descending(top, fork), branch, top - fork));
    }
  }

  lemma Shift(a: seq<nat>, x: nat, b: seq<nat>)
    ensures a + ([x] + b) == (a + [x]) + b
  {
  }

  lemma HasParents(a: Arena)
    requires a.Linked()
    ensures |a.nodes| > 0 && a.nodes[0].prev == None
    ensures forall i :: 0 < i < |a.nodes| ==> a.nodes[i].prev.Some? && a.nodes[i].prev.value < i
  {
  }

  lemma SwitchedIs(a: Arena, best: nat)
    requires a.Valid() && best < |a.nodes|
    requires forall i :: 0 < i < |a.nodes| ==> a.nodes[i].prev.Some? && a.nodes[i].prev.value < i
    ensures Switched(a, best) == Arena(Rebased(a.nodes, Ancestry(a, best), |a.nodes|), Ancestry(a, best))
  {
    hide Arena.Linked, Arena.Chained, Arena.Based, Ancestry, Rebased;
  }

  lemma TipHeight(a: Arena)
    requires a.Valid()
    ensures a.nodes[a.Tip()].height == |a.canonical| - 1
  {
  }

  lemma ForkStep(a: Arena, i: nat)
    requires a.Valid() && i < |a.nodes|
    ensures a.IsCanonical(i) ==> ForkHeight(a, i) == a.nodes[i].height
    ensures !a.IsCanonical(i) && a.nodes[i].prev.Some? && a.nodes[i].prev.value < |a.nodes| ==>
              ForkHeight(a, i) == ForkHeight(a, a.nodes[i].prev.value)
  {
    hide Ancestry;
  }

  lemma AncestryStart(a: Arena)
    requires a.Linked()
    ensures Ancestry(a, 0) == [0] && a.nodes[0].prev == None
  {
  }

  lemma OnlyFirst(a: Arena, i: nat)
    requires a.Linked() && i < |a.nodes| && a.nodes[i].prev == None
    ensures i == 0
  {
  }

  ghost predicate OneMore(a: Arena, a': Arena) {
    && a.Valid() && |a'.nodes| == |a.nodes| + 1 && a'.canonical == a.canonical
    && (forall i :: 0 <= i < |a.nodes| ==> a'.nodes[i] == a.nodes[i])
    && var n := a'.nodes[|a.nodes|];
       && n.prev.Some? && n.prev.value < |a.nodes| && Extends(a.nodes[n.prev.value], n)
       && (forall i :: 0 <= i < |a.nodes| ==> a.nodes[i].hash != n.hash)
       && n.base == if a.IsCanonical(n.prev.value) then a.nodes[n.prev.value].height else a.nodes[n.prev.value].base
  }

  lemma GrownLinked(a: Arena, a': Arena)
    requires OneMore(a, a')
    ensures a'.Linked()
  {
    hide Arena.Chained, Arena.Based, Arena.IsCanonical, Extends;
    var m := |a.nodes|;
    forall i | 0 < i <= m
      ensures a'.nodes[i].prev.Some? && a'.nodes[i].prev.value < i
              && Extends(a'.nodes[a'.nodes[i].prev.value], a'.nodes[i])
    {
      if i < m {
        assert a'.nodes[i] == a.nodes[i];
      }
    }
    forall i, j | 0 <= i < j <= m ensures a'.nodes[i].hash != a'.nodes[j].hash {
      assert a'.nodes[i] == a.nodes[i];
      if j < m {
        assert a'.nodes[j] == a.nodes[j];
      }
    }
  }

  lemma SameCanonical(a: Arena, a': Arena, p: nat)
    requires OneMore(a, a') && p < |a.nodes|
    ensures a'.IsCanonical(p) == a.IsCanonical(p) && a'.nodes[p] == a.nodes[p]
  {
    hide Arena.Chained, Arena.Based, Arena.Linked, Extends;
  }

  lemma RecordedBase(a: Arena, i: nat)
    requires a.Valid() && 0 < i < |a.nodes|
    ensures var p := a.nodes[i].prev;
            && p.Some? && p.value < i
            && a.nodes[i].base == if a.IsCanonical(p.value) then a.nodes[p.value].height else a.nodes[p.value].base
    ensures a.nodes[0].base == 0
  {
    hide Arena.Chained, Extends, Arena.IsCanonical;
  }

  lemma FirstBase(a: Arena, a': Arena)
    requires OneMore(a, a')
    ensures a'.nodes[0].base == 0 && |a.nodes| > 0
  {
    hide Arena.Chained, Extends, Arena.IsCanonical;
  }

  lemma GrownBased(a: Arena, a': Arena)
    requires OneMore(a, a') && a'.Linked()
    ensures a'.Based()
  {
    hide Arena.Chained, Extends, Arena.IsCanonical, Arena.Valid;
    var m := |a.nodes|;
    FirstBase(a, a');
    forall i | 0 < i < |a'.nodes|
      ensures var p := a'.nodes[i].prev.value;
              a'.nodes[i].base == if a'.IsCanonical(p) then a'.nodes[p].height else a'.nodes[p].base
    {
      var p := a'.nodes[i].prev.value;
      assert p < m;
      SameCanonical(a, a', p);
      if i < m {
        assert a'.nodes[i] == a.nodes[i];
        RecordedBase(a, i);
      }
    }
  }

  lemma Grown(a: Arena, a': Arena)
    requires OneMore(a, a')
    ensures a'.Valid()
  {
    GrownLinked(a, a');
    GrownBased(a, a');
    hide Arena.Linked, Arena.Based;
  }

  lemma StillValid(a: Arena, a': Arena, idx: nat)
    requires a.Valid() && idx < |a.nodes| && OnlyFlags(a.nodes, a'.nodes) && a'.canonical == a.canonical
    requires forall i :: 0 <= i < |a.nodes| ==> (a'.nodes[i].invalid <==> Poisoned(a, idx, i))
    ensures a'.Valid()
  {
    hide Ancestry;
    forall i | 0 < i < |a.nodes| ensures a'.nodes[a'.nodes[i].prev.value].invalid ==> a'.nodes[i].invalid {
      if i != idx {
        PoisonStep(a, idx, i);
      } else {
        ParentOf(a, i);
      }
    }
  }
}
