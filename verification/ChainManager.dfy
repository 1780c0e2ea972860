/** The header index and the store together: adopting a plan keeps them in step, over every run
    of commits, and the verdicts of the adoption loop are those of the replay. */
module ChainManager {
  import opened Wrappers
  import opened Ledger
  import opened LedgerLaws
  import opened Body
  import opened Reorg
  import opened HeaderArena
  import opened ForkChoice
  import opened Adoption

  // ----- headers and their blocks -----

  /** The blocks of some headers, given the block of each header. */
  function BlocksOf(block: nat -> Block, ids: seq<nat>): (r: seq<Block>)
    ensures |r| == |ids|
  {
    seq(|ids|, i requires 0 <= i < |ids| => block(ids[i]))
  }

  /** The blocks of the canonical chain above the first header. */
  function CanonicalBlocks(a: Arena, block: nat -> Block): seq<Block>
    requires a.Valid()
  {
    BlocksOf(block, a.canonical[1..])
  }

  /** The blocks on the way to a header, above the first. */
  function PathBlocks(a: Arena, block: nat -> Block, i: nat): seq<Block>
    requires a.Linked() && i < |a.nodes|
  {
    BlocksOf(block, Ancestry(a, i)[1..])
  }

  predicate RightHeights(a: Arena, block: nat -> Block) {
    forall i: nat :: i < |a.nodes| ==> block(i).header.height == a.nodes[i].height
  }

  lemma PathHeights(a: Arena, block: nat -> Block, i: nat)
    requires a.Linked() && i < |a.nodes| && RightHeights(a, block)
    ensures Heights(PathBlocks(a, block, i), 1) && |PathBlocks(a, block, i)| == a.nodes[i].height
  {
    hide Arena.Linked, Ancestry;
    AncestryChain(a, i);
    var r := Ancestry(a, i);
    forall k | 0 <= k < |r| - 1 ensures PathBlocks(a, block, i)[k].header.height == 1 + k {
      assert r[1..][k] == r[k + 1];
    }
  }

  /** The plan in blocks: the tip's height, the chain kept up to the fork, and the branch, which
      together are the way to the chosen header. */
  lemma PlanInBlocks(a: Arena, block: nat -> Block, best: nat)
    requires a.Valid() && best < |a.nodes| && RightHeights(a, block)
    ensures var p, chain := PlanFor(a, best), CanonicalBlocks(a, block);
            && p.forkHeight <= |chain| == a.nodes[a.Tip()].height && p.rollback == Descending(|chain|, p.forkHeight)
            && chain[..p.forkHeight] + BlocksOf(block, p.apply) == PathBlocks(a, block, best)
            && Heights(BlocksOf(block, p.apply), p.forkHeight + 1)
  {
    hide Arena.Linked, Arena.Chained, Arena.Based, Ancestry, ForkHeight;
    var p, chain, path := PlanFor(a, best), CanonicalBlocks(a, block), PathBlocks(a, block, best);
    var f, r := p.forkHeight, Ancestry(a, best);
    ForkSplits(a, best);
    PathHeights(a, block, best);
    CanonicalHeight(a);
    assert r[1..] == r[..f + 1][1..] + r[f + 1..];
    assert r[..f + 1][1..] == a.canonical[1..][..f];
    var branch := BlocksOf(block, p.apply);
    assert chain[..f] + branch == path;
    forall k | 0 <= k < |branch| ensures branch[k].header.height == f + 1 + k {
      assert path[f + k] == branch[k];
    }
  }

  lemma CanonicalHeight(a: Arena)
    requires a.Valid()
    ensures |a.canonical| == a.nodes[a.Tip()].height + 1
  {
    hide Extends, Arena.Based;
  }

  /** The index and the store show the same chain. */
  ghost predicate InStep(rules: Rules, store: Store, start: Chain, a: Arena, block: nat -> Block) {
    a.Valid() && RightHeights(a, block) && Faithful(rules, store, start, CanonicalBlocks(a, block))
  }

  /** A snapshot on offer is the state at its height, and covers the tip if it will be used. */
  ghost predicate SnapshotUsable(rules: Rules, store: Store, start: Chain, chain: seq<Block>, fork: nat)
    requires Faithful(rules, store, start, chain) && fork <= |chain|
  {
    && (DeepStart(store, fork).Some? ==> SnapshotOf(rules, store, start, chain, fork))
    && (HaveUndo(store, fork, |chain|) || DeepStart(store, fork).None?
        || NoStrays(store.accounts, DeepStart(store, fork).value.1))
  }

  lemma PlanFits(rules: Rules, store: Store, start: Chain, a: Arena, block: nat -> Block, best: nat)
    requires InStep(rules, store, start, a, block) && best < |a.nodes|
    ensures PlanFor(a, best).forkHeight <= |CanonicalBlocks(a, block)|
  {
    hide Arena.Valid, PlanFor, CanonicalBlocks, Faithful;
    PlanInBlocks(a, block, best);
  }

  ghost predicate PlanUsable(rules: Rules, store: Store, start: Chain, a: Arena, block: nat -> Block, best: nat)
    requires InStep(rules, store, start, a, block) && best < |a.nodes|
  {
    PlanFits(rules, store, start, a, block, best);
    SnapshotUsable(rules, store, start, CanonicalBlocks(a, block), PlanFor(a, best).forkHeight)
  }

  /** The canonical chain after a switch is the way to the chosen header. */
  lemma SwitchedBlocks(a: Arena, block: nat -> Block, best: nat)
    requires a.Valid() && best < |a.nodes| && RightHeights(a, block)
    ensures Switched(a, best).Valid() && RightHeights(Switched(a, best), block)
    ensures CanonicalBlocks(Switched(a, best), block) == PathBlocks(a, block, best)
  {
    hide Arena.Linked, Arena.Chained, Arena.Based, Ancestry, RebasedAll;
    SwitchedValid(a, best);
  }

  // ----- the manager -----

  class Manager {
    const rules: Rules
    const block: nat -> Block
    const index: HeaderIndex
    ghost const start: Chain
    var store: Store

    ghost predicate Valid()
      reads this, index
    {
      index.Valid() && InStep(rules, store, start, index.A(), block)
    }

    /** At the first block: an index of one header, and a store without any other. */
    constructor (rules: Rules, block: nat -> Block, index: HeaderIndex, store: Store, ghost start: Chain)
      requires index.Valid() && index.canonical == [0] && RightHeights(index.A(), block)
      requires start.led == GenesisEntries(rules, store) && Same(store.accounts, start.accounts)
      requires 0 in store.bodies ==> BlockEntries(rules, 0, store.bodies[0]).1
      ensures Valid() && this.index == index && this.store == store && this.start == start && this.block == block
      ensures this.rules == rules
    {
      hide BlockEntries, Faithful, Same;
      this.rules, this.block, this.index, this.store := rules, block, index, store;
      this.start := start;
      new;
      GenesisFaithful(rules, store, start);
      assert CanonicalBlocks(index.A(), block) == [];
    }

    /** A header is admitted: the chain stays as it is. */
    method Admit(rec: HeaderRec, parent: nat, cumWork: nat, powOk: bool) returns (idx: nat)
      requires Valid() && parent < |index.nodes|
      requires rec.height == index.nodes[parent].height + 1 && cumWork > index.nodes[parent].work
      requires block(|index.nodes|).header.height == rec.height
      modifies index
      ensures Valid() && index.canonical == old(index.canonical) && store == old(store)
    {
      hide Faithful, Arena.Linked, Arena.Chained, Arena.Based;
      ghost var was := index.nodes;
      idx := index.Insert(rec, parent, cumWork, powOk);
      forall i: nat | i < |index.nodes| ensures block(i).header.height == index.nodes[i].height {
        if i < |was| {
          assert index.nodes[..|was|][i] == index.nodes[i];
        }
      }
    }

    /** Adopts the chain of a header: accepted exactly when the replay of the way to it is. Then
        the store is that replay's and the header is the tip; otherwise nothing has changed, and
        the header that could not be applied is named by its height. */
    method TryAdopt(best: nat, floor: nat) returns (r: Result<Base, Refusal>)
      requires Valid() && best < |index.nodes| && best != index.A().Tip()
      requires PlanUsable(rules, store, start, index.A(), block, best)
      modifies this`store, index
      ensures Valid()
      ensures Adopts(rules, start, old(index.A()), block, old(store), best, r)
      ensures r.Err? ==> index.A() == old(index.A()) && store == old(store)
      ensures r.Ok? ==>
                && old(index.A()).Valid() && index.A() == Switched(old(index.A()), best)
                && Same(store.accounts, Replay(rules, start, PathBlocks(old(index.A()), block, best)).value.accounts)
    {
      hide Faithful, Same, Replay, BadAt, PlanFor, Ancestry, Arena.Linked, Arena.Chained, Arena.Based, Switched,
        SnapshotUsable;
      ghost var a := index.A();
      PlanInBlocks(a, block, best);
      CanonicalHeight(a);
      var plan := index.PlanReorg(best);
      var fork, branch := plan.value.forkHeight, BlocksOf(block, plan.value.apply);
      var chain := BlocksOf(block, index.canonical[1..]);
      var out := Execute(rules, store, fork, branch, floor, chain, start);
      if out.Err? {
        return Err(out.error);
      }
      store := out.value.1;
      index.SetCanonical(best);
      SwitchedBlocks(a, block, best);
      FaithfulAccounts(rules, store, start, CanonicalBlocks(index.A(), block));
      r := Ok(out.value.0);
    }
  }

  /** Executes a plan in blocks and commits it. */
  method Execute(rules: Rules, store: Store, fork: nat, branch: seq<Block>, floor: nat, chain: seq<Block>,
                 ghost start: Chain)
      returns (r: Result<(Base, Store), Refusal>)
    requires Faithful(rules, store, start, chain) && fork <= |chain| && Heights(branch, fork + 1)
    requires SnapshotUsable(rules, store, start, chain, fork)
    ensures !CanRewind(store, fork, |chain|) ==> r == Err(ResyncRequired(fork, store.replayFloor))
    ensures CanRewind(store, fork, |chain|) ==>
              var next := chain[..fork] + branch;
              if Replay(rules, start, next).Ok? then r.Ok? && Faithful(rules, r.value.1, start, next)
              else r == Err(BranchInvalid(1 + BadAt(rules, start, next), Replay(rules, start, next).error))
  {
    hide Faithful, Same, Replay, BadAt, Steps, HaveUndo, NoStrays;
    var overlay := new Overlay(store.accounts);
    var ledger := new CoinbaseLedger();
    var out := Switch(rules, store, overlay, ledger, fork, |chain|, branch, start, chain);
    if out.Err? {
      return Err(out.error);
    }
    var base, vs := out.value.0, out.value.1;
    StaysFaithful(rules, store, start, chain, fork, |chain|, branch, base, vs, floor);
    r := Ok((base, CommitReorg(store, chain, fork, |chain|, branch, base, vs, floor)));
  }

  /** What trying to adopt a header must answer. */
  ghost predicate Adopts(rules: Rules, start: Chain, a: Arena, block: nat -> Block, s: Store, best: nat,
                         r: Result<Base, Refusal>) {
    && a.Valid() && best < |a.nodes|
    && var fork, path := PlanFor(a, best).forkHeight, PathBlocks(a, block, best);
       if !CanRewind(s, fork, |CanonicalBlocks(a, block)|) then r == Err(ResyncRequired(fork, s.replayFloor))
       else if Replay(rules, start, path).Ok? then r.Ok?
       else r == Err(BranchInvalid(1 + BadAt(rules, start, path), Replay(rules, start, path).error))
  }

  lemma FaithfulAccounts(rules: Rules, store: Store, start: Chain, chain: seq<Block>)
    requires Faithful(rules, store, start, chain)
    ensures Replay(rules, start, chain).Ok? && Same(store.accounts, Replay(rules, start, chain).value.accounts)
  {
    hide Replay, Same, Undoes, BlockEntries, Holds;
    assert chain[..|chain|] == chain;
  }

  // ----- whole runs -----

  /** One committed switch. */
  datatype Move = Move(fork: nat, branch: seq<Block>, base: Base, vs: seq<ValidatedBlock>, floor: nat)

  /** A move this store can make: one commit for each block above the base, as a switch reports
      them, and a snapshot, if it is the base, of the state at its height. */
  ghost predicate Possible(rules: Rules, start: Chain, store: Store, chain: seq<Block>, m: Move) {
    && m.fork <= |chain| && Heights(m.branch, m.fork + 1)
    && BaseOf(store, m.fork, |chain|, m.base) && BaseHeight(m.base, m.fork) <= m.fork
    && var at := BaseHeight(m.base, m.fork);
       var c := Replay(rules, start, chain[..at]);
       && c.Ok? && Steps(rules, c.value, chain[at..m.fork] + m.branch, m.vs, m.fork - at + |m.branch|)
       && (m.base.DeepReplay? ==> Same(DeepStart(store, m.fork).value.1, c.value.accounts))
  }

  ghost predicate Moves(rules: Rules, start: Chain, store: Store, chain: seq<Block>, m: Move, store': Store,
                        chain': seq<Block>) {
    && Possible(rules, start, store, chain, m)
    && store' == CommitReorg(store, chain, m.fork, |chain|, m.branch, m.base, m.vs, m.floor)
    && chain' == chain[..m.fork] + m.branch
  }

  /** A run of a node: a store with the first block only, and then one committed switch after
      another. */
  ghost predicate IsRun(rules: Rules, start: Chain, moves: seq<Move>, stores: seq<Store>, chains: seq<seq<Block>>) {
    && |stores| == |chains| == |moves| + 1 && chains[0] == []
    && start.led == GenesisEntries(rules, stores[0]) && Same(stores[0].accounts, start.accounts)
    && (0 in stores[0].bodies ==> BlockEntries(rules, 0, stores[0].bodies[0]).1)
    && (forall i :: 0 <= i < |moves| ==>
          Moves(rules, start, stores[i], chains[i], moves[i], stores[i + 1], chains[i + 1]))
  }

  /** Every store a run reaches, through any number of reorganisations, is the store of its
      chain. */
  lemma {:induction false} EveryStoreFaithful(rules: Rules, start: Chain, moves: seq<Move>, stores: seq<Store>,
                                              chains: seq<seq<Block>>,
                                              n: nat)
    requires IsRun(rules, start, moves, stores, chains) && n <= |moves|
    ensures Faithful(rules, stores[n], start, chains[n])
  {
    hide Faithful, Same, BlockEntries, Replay, Steps, CommitReorg, HaveUndo;
    if n == 0 {
      GenesisFaithful(rules, stores[0], start);
    } else {
      EveryStoreFaithful(rules, start, moves, stores, chains, n - 1);
      var s, c, m := stores[n - 1], chains[n - 1], moves[n - 1];
      assert Moves(rules, start, s, c, m, stores[n - 1 + 1], chains[n - 1 + 1]);
      StaysFaithful(rules, s, start, c, m.fork, |c|, m.branch, m.base, m.vs, m.floor);
    }
  }

  lemma TotalSame(s: State, t: State)
    requires Same(s, t)
    ensures Total(s) == Total(t)
  {
    var keys := s.Keys + t.Keys;
    SumSuperset(s, keys);
    SumSuperset(t, keys);
    forall a | a in keys ensures Get(s, a).balance == Get(t, a).balance {
      assert Get(s, a) == Get(t, a);
    }
    SumElsewhere(s, t, keys);
  }

  /** So however often the node has switched, the coins in its store are those of the start and
      one subsidy for each block of the chain it is on: what a switch undoes is not paid out. */
  lemma SupplyOverRuns(rules: Rules, start: Chain, moves: seq<Move>, stores: seq<Store>, chains: seq<seq<Block>>,
                       n: nat)
    requires IsRun(rules, start, moves, stores, chains) && n <= |moves|
    ensures Total(stores[n].accounts) == Total(start.accounts) + SUBSIDY * |chains[n]|
  {
    hide Moves, Faithful, Same, Replay, Total, Rewards, BlockEntries;
    EveryStoreFaithful(rules, start, moves, stores, chains, n);
    FaithfulAccounts(rules, stores[n], start, chains[n]);
    TotalSame(stores[n].accounts, Replay(rules, start, chains[n]).value.accounts);
    Conservation(rules, start, chains[n]);
    FaithfulHeights(rules, stores[n], start, chains[n]);
    FlatSubsidy(chains[n], 1);
  }

  lemma FaithfulHeights(rules: Rules, store: Store, start: Chain, chain: seq<Block>)
    requires Faithful(rules, store, start, chain)
    ensures Heights(chain, 1)
  {
    hide Replay, Same, Undoes, BlockEntries, Holds;
  }

  // ----- the adoption loop -----

  /** The verdict adopting a header comes to: refused by a rule, or what the replay says, with
      the first bad block's place in the plan. */
  function ReplayVerdict(rules: Rules, start: Chain, a: Arena, block: nat -> Block, rule: nat -> bool, b: nat): Verdict
    requires a.Valid()
  {
    if b >= |a.nodes| then Stopped
    else if rule(b) then RuleRefused
    else
      var path := PathBlocks(a, block, b);
      if Replay(rules, start, path).Ok? then Adopt
      else
        var bad, fork := BadAt(rules, start, path), PlanFor(a, b).forkHeight;
        if bad < fork then OwnChainBad else BranchBad(bad - fork)
  }

  function Verdicts(rules: Rules, start: Chain, a: Arena, block: nat -> Block, rule: nat -> bool): (nat, nat) -> Verdict
    requires a.Valid()
  {
    (round: nat, b: nat) requires a.Valid() => ReplayVerdict(rules, start, a, block, rule, b)
  }

  /** It is the verdict of the manager's own attempt, when the store is in step and can be
      rewound. */
  lemma AttemptIsVerdict(rules: Rules, start: Chain, a: Arena, block: nat -> Block, s: Store, best: nat,
                         r: Result<Base, Refusal>)
    requires InStep(rules, s, start, a, block) && Adopts(rules, start, a, block, s, best, r)
    requires CanRewind(s, PlanFor(a, best).forkHeight, |CanonicalBlocks(a, block)|)
    ensures var v := ReplayVerdict(rules, start, a, block, _ => false, best);
            if r.Ok? then v == Adopt
            else v.BranchBad? && r.error.BranchInvalid? && r.error.height == 1 + PlanFor(a, best).forkHeight + v.pos
  {
    hide Faithful, Replay, BadAt, PlanFor, Ancestry, Arena.Linked, Arena.Chained, Arena.Based;
    if Replay(rules, start, PathBlocks(a, block, best)).Err? {
      BadAboveFork(rules, s, start, a, block, best);
    }
  }

  /** The kept part of the chain replays, so a bad block is above the fork. */
  lemma BadAboveFork(rules: Rules, store: Store, start: Chain, a: Arena, block: nat -> Block, best: nat)
    requires InStep(rules, store, start, a, block) && best < |a.nodes|
    requires Replay(rules, start, PathBlocks(a, block, best)).Err?
    ensures BadAt(rules, start, PathBlocks(a, block, best)) >= PlanFor(a, best).forkHeight
  {
    hide Replay, BadAt, PlanFor, Ancestry, Arena.Linked, Arena.Chained, Arena.Based, Same, Undoes, BlockEntries, Holds;
    var chain, fork := CanonicalBlocks(a, block), PlanFor(a, best).forkHeight;
    var branch := BlocksOf(block, PlanFor(a, best).apply);
    PlanInBlocks(a, block, best);
    assert Replay(rules, start, chain[..fork]).Ok?;
    ReplayAppend(rules, start, chain[..fork], branch);
    BadAppend(rules, start, chain[..fork], branch);
  }

  /** Replaying the way to the header that is blamed fails. */
  lemma BlamedFails(rules: Rules, start: Chain, a: Arena, block: nat -> Block, b: nat)
    requires a.Valid() && b < |a.nodes| && RightHeights(a, block)
    requires Replay(rules, start, PathBlocks(a, block, b)).Err?
    requires BadAt(rules, start, PathBlocks(a, block, b)) >= PlanFor(a, b).forkHeight
    ensures var pos := BadAt(rules, start, PathBlocks(a, block, b)) - PlanFor(a, b).forkHeight;
            && pos < |PlanFor(a, b).apply| && PlanFor(a, b).apply[pos] < |a.nodes|
            && Replay(rules, start, PathBlocks(a, block, PlanFor(a, b).apply[pos])).Err?
  {
    hide Replay, BadAt, Ancestry, Arena.Linked, Arena.Chained, Arena.Based, ForkHeight;
    var path, fork, r := PathBlocks(a, block, b), PlanFor(a, b).forkHeight, Ancestry(a, b);
    var bad := BadAt(rules, start, path);
    ForkSplits(a, b);
    var apply := PlanFor(a, b).apply;
    assert apply == r[fork + 1..];
    assert apply[bad - fork] == r[bad + 1];
    AncestryPrefix(a, b, bad + 1);
    BadSplits(rules, start, path);
    assert r[..bad + 2][1..] == r[1..][..bad + 1];
    assert PathBlocks(a, block, r[bad + 1]) == path[..bad + 1];
  }

  /** A header whose ancestor's chain does not replay does not replay either. */
  lemma FailsBelow(rules: Rules, start: Chain, a: Arena, block: nat -> Block, m: nat, i: nat)
    requires a.Linked() && i < |a.nodes| && m in Ancestry(a, i) && m < |a.nodes|
    requires Replay(rules, start, PathBlocks(a, block, m)).Err?
    ensures Replay(rules, start, PathBlocks(a, block, i)).Err?
  {
    hide Replay, Ancestry, Arena.Linked;
    var r := Ancestry(a, i);
    AncestryChain(a, i);
    var k :| 0 <= k < |r| && r[k] == m;
    AncestryPrefix(a, i, k);
    var path := PathBlocks(a, block, i);
    assert r[..k + 1][1..] == r[1..][..k];
    assert PathBlocks(a, block, m) == path[..k];
    ReplayStuck(rules, start, path, k);
  }

  /** With the replay's verdicts, whatever the rules refuse: the loop marks a header invalid only
      if the way to it does not replay, and it adopts a chain that does. */
  lemma LoopFollowsReplay(rules: Rules, store: Store, start: Chain, first: Arena, at: Arena, block: nat -> Block,
                          rule: nat -> bool, have: nat -> bool, refused: set<nat>)
    requires InStep(rules, store, start, first, block)
    requires Fair(first, at, have, Verdicts(rules, start, first, block, rule), refused)
    ensures at.Valid() && |at.nodes| == |first.nodes|
    ensures forall i: nat :: i < |at.nodes| && at.nodes[i].invalid && !first.nodes[i].invalid ==>
              Replay(rules, start, PathBlocks(at, block, i)).Err?
    ensures forall a :: Adopted(at, Verdicts(rules, start, first, block, rule), refused, a) ==>
              a.Valid() && Replay(rules, start, CanonicalBlocks(a, block)).Ok?
  {
    hide Faithful, Replay, PathBlocks, Arena.Linked, Arena.Chained, Arena.Based, Ancestry, PlanFor, BadAt, Excused,
      Switched;
    var verdict := Verdicts(rules, start, first, block, rule);
    forall i: nat | i < |at.nodes| && at.nodes[i].invalid && !first.nodes[i].invalid
      ensures Replay(rules, start, PathBlocks(at, block, i)).Err?
    {
      var round: nat, b: nat, m: nat :| Blames(at, verdict, round, b, m) && m in Ancestry(at, i);
      BlameMeans(rules, start, first, at, block, rule, round, b, m);
      FailsBelow(rules, start, at, block, m, i);
    }
    forall a | Adopted(at, verdict, refused, a)
      ensures a.Valid() && Replay(rules, start, CanonicalBlocks(a, block)).Ok? {
      var round: nat, best: nat :| Chosen(at, verdict, refused, round, best) && a == Switched(at, best);
      AdoptMeans(rules, start, first, at, block, rule, round, best);
      SwitchedBlocks(at, block, best);
    }
  }

  lemma SamePath(a: Arena, a': Arena, block: nat -> Block, i: nat)
    requires a.Linked() && a'.Linked() && OnlyFlags(a.nodes, a'.nodes) && i < |a.nodes|
    ensures PathBlocks(a', block, i) == PathBlocks(a, block, i)
  {
    hide Arena.Linked, Ancestry, OnlyFlags;
    FlagsKeepAncestry(a, a', i);
  }

  lemma AdoptMeans(rules: Rules, start: Chain, first: Arena, at: Arena, block: nat -> Block, rule: nat -> bool,
                   round: nat, best: nat)
    requires first.Valid() && at.Valid() && OnlyFlags(first.nodes, at.nodes) && RightHeights(first, block)
    requires best < |at.nodes| && Verdicts(rules, start, first, block, rule)(round, best).Adopt?
    ensures Replay(rules, start, PathBlocks(at, block, best)).Ok? && RightHeights(at, block)
  {
    hide Replay, PathBlocks, Arena.Linked, Arena.Chained, Arena.Based, PlanFor, BadAt;
    SamePath(first, at, block, best);
  }

  lemma BlameMeans(rules: Rules, start: Chain, first: Arena, at: Arena, block: nat -> Block, rule: nat -> bool,
                   round: nat, b: nat,
                   m: nat)
    requires first.Valid() && at.Valid() && at.canonical == first.canonical && OnlyFlags(first.nodes, at.nodes)
    requires RightHeights(first, block) && Blames(at, Verdicts(rules, start, first, block, rule), round, b, m)
    ensures m < |at.nodes| && Replay(rules, start, PathBlocks(at, block, m)).Err?
  {
    hide Replay, PathBlocks, Arena.Linked, Arena.Chained, Arena.Based, PlanFor, BadAt;
    BlamedFails(rules, start, first, block, b);
    FlagsKeepPlan(first, at, b);
    SamePath(first, at, block, m);
  }
}
