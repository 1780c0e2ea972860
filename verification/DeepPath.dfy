/** The deep path of a rewind when it goes wrong: on every chain that starts from an empty
    snapshot, and in one store the node can be in. */
module DeepPath {
  import opened Wrappers
  import opened Ledger
  import opened LedgerLaws
  import opened Body
  import opened Reorg

  /** The deep path gives the accounts at the fork. */
  ghost predicate Reaches(rules: Rules, store: Store, rows: State, blocks: seq<Block>, s: State) {
    var r := Rebuild(rules, store.accounts + rows, blocks); r.Ok? && Same(s, r.value)
  }

  lemma NothingHeld(s: State)
    requires forall a :: a in s ==> s[a].balance == 0
    ensures Total(s) == 0
  {
    var none: State := map[];
    SumElsewhere(s, none, s.Keys);
    SumSuperset(none, s.Keys);
  }

  /** After a block from an empty start the tip holds an account that an empty snapshot does
      not know. */
  lemma TipHasStrays(rules: Rules, store: Store, start: Chain, chain: seq<Block>)
    requires Faithful(rules, store, start, chain) && start.accounts == map[] && chain != []
    ensures !NoStrays(store.accounts, map[])
  {
    hide Replay, Total, Undoes, BlockEntries, Holds;
    var tip := StateAt(rules, start, chain, |chain|);
    assert chain[..|chain|] == chain;
    Conservation(rules, start, chain);
    FlatSubsidy(chain, 1);
    NothingHeld(start.accounts);
    if NoStrays(store.accounts, map[]) {
      forall a | a in tip ensures tip[a].balance == 0 {
        assert Get(store.accounts, a) == Get(tip, a);
      }
      NothingHeld(tip);
    }
  }

  /** From an empty start the deep path over the first snapshot is wrong at every fork of every
      chain of at least one block: rewards the tip already holds are counted again. */
  lemma EmptySnapshotFails(rules: Rules, store: Store, start: Chain, chain: seq<Block>, fork: nat)
    requires Faithful(rules, store, start, chain) && start.accounts == map[] && chain != [] && fork <= |chain|
    ensures !Reaches(rules, store, map[], chain[..fork], StateAt(rules, start, chain, fork))
  {
    hide Replay, Rebuild, NoStrays, Undoes, BlockEntries, Holds;
    TipHasStrays(rules, store, start, chain);
    SameSelf(map[]);
    DeepReplayExact(rules, start, map[], store.accounts, chain[..fork]);
  }

  // ----- an instance: two blocks that pay two addresses -----

  const FIRST := Address([])

  const SECOND := Address([0])

  function Payee(height: U64): Address { if height == 1 then FIRST else SECOND }

  /** Bodies of one record, the coinbase of the first or the second block. */
  function TwoPayments(): Rules {
    Rules((raw: Bytes) => Some([raw]),
          (raw: Bytes) => Some(if raw == [] then Reward(1) else Reward(2)),
          _ => [], _ => [], _ => FIRST, [], _ => true)
  }

  function Reward(height: U64): Tx { Coinbase(height, Payee(height), SUBSIDY, 0, []) }

  function Paying(height: U64): Block { Block(Header(height, [], 0, 0), if height == 1 then [] else [0]) }

  function Paid(n: nat): Account
    requires n <= 2
  {
    Account(n * SUBSIDY, 0)
  }

  /** The tip is the second block. Its undo list has been pruned, and a snapshot of the empty
      start is on offer. */
  function PrunedStore(): Store {
    Store(map[FIRST := Paid(1), SECOND := Paid(1)],
          map[1 := Paying(1).raw, 2 := Paying(2).raw],
          map[1 := Paying(1).header, 2 := Paying(2).header],
          map[], _ => Some(0), 0, _ => Some(map[]))
  }

  lemma PayingRecords(height: U64)
    requires height == 1 || height == 2
    ensures var b := Paying(height); DecodeFirst(TwoPayments(), [b.raw], 1) == Ok([Reward(height)])
  {
    var rules, records := TwoPayments(), [Paying(height).raw];
    assert rules.decode(records[0]) == Some(Reward(height));
    assert DecodeFirst(rules, records, 0) == Ok([]);
    assert [] + [Reward(height)] == [Reward(height)];
  }

  lemma PayingBody(height: U64, trust: Trust)
    requires height == 1 || height == 2
    ensures var b := Paying(height);
            CheckBody(TwoPayments(), b.header, b.raw, trust) == Ok(Checked([b.raw], [Reward(height)]))
  {
    hide DecodeFirst;
    var rules, b, cb := TwoPayments(), Paying(height), Reward(height);
    var records, txs := [b.raw], [cb];
    assert rules.parse(b.raw) == Some(records);
    PayingRecords(height);
    assert txs[..0] == [];
    assert Fees([]) == 0 && Fees(txs) == 0;
    assert CheckAuthorities(rules, trust, txs, 0).None?;
    assert CheckAuthorities(rules, trust, txs, 1).None?;
    assert CheckStructure(txs) == Ok(cb);
    assert CheckTotals(b.header, records, txs) == Ok(Checked(records, txs));
  }

  /** Either block adds one subsidy to its payee. */
  lemma PayingBlock(c: Chain, height: U64, trust: Trust)
    requires (height == 1 || height == 2) && Get(c.accounts, Payee(height)).balance <= SUBSIDY
    ensures var acct := Get(c.accounts, Payee(height));
            ApplyBlock(TwoPayments(), c, Paying(height), trust) ==
            Ok(Chain(c.accounts[Payee(height) := Account(acct.balance + SUBSIDY, acct.nonce)],
                     c.led + [Entry(height, Payee(height), SUBSIDY)]))
  {
    hide CheckBody;
    var rules, b := TwoPayments(), Paying(height);
    PayingBody(height, trust);
    CheckedIsValid(rules, b.header, b.raw, trust);
    var body := CheckBody(rules, b.header, b.raw, trust).value;
    assert body.Credit() == SUBSIDY;
  }

  function Genesis(): Chain { Chain(map[], []) }

  function TwoBlocks(): seq<Block> { [Paying(1), Paying(2)] }

  lemma TwoReplay()
    ensures var led := [Entry(1, FIRST, SUBSIDY)];
            && Replay(TwoPayments(), Genesis(), []) == Ok(Genesis())
            && Replay(TwoPayments(), Genesis(), [Paying(1)]) == Ok(Chain(map[FIRST := Paid(1)], led))
            && Replay(TwoPayments(), Genesis(), TwoBlocks()) ==
               Ok(Chain(map[FIRST := Paid(1), SECOND := Paid(1)], led + [Entry(2, SECOND, SUBSIDY)]))
  {
    hide ApplyBlock;
    var rules, one := TwoPayments(), Chain(map[FIRST := Paid(1)], [Entry(1, FIRST, SUBSIDY)]);
    assert FIRST != SECOND;
    PayingBlock(Genesis(), 1, Untrusted);
    assert [Paying(1)][..0] == [] && TwoBlocks()[..1] == [Paying(1)];
    assert [] + [Entry(1, FIRST, SUBSIDY)] == one.led;
    assert Replay(rules, Genesis(), [Paying(1)]) == Ok(one);
    PayingBlock(one, 2, Untrusted);
    assert Replay(rules, Genesis(), TwoBlocks()) == ApplyBlock(rules, one, Paying(2), Untrusted);
  }

  lemma PrunedIsFaithful()
    ensures Faithful(TwoPayments(), PrunedStore(), Genesis(), TwoBlocks())
  {
    hide Replay, BlockEntries;
    var chain := TwoBlocks();
    TwoReplay();
    assert chain[..0] == [] && chain[..1] == [Paying(1)] && chain[..2] == chain;
    forall h | 0 <= h <= |chain| ensures Replay(TwoPayments(), Genesis(), chain[..h]).Ok? {
      assert h == 0 || h == 1 || h == 2;
    }
    SameSelf(PrunedStore().accounts);
  }

  /** A switch at the first block goes by the deep path, and rebuilds accounts in which the first
      payee has two subsidies and the second, who is paid above the fork, still has one. */
  lemma DeepReplayDiverges()
    ensures var rules, store, chain := TwoPayments(), PrunedStore(), TwoBlocks();
            && Faithful(rules, store, Genesis(), chain)
            && !HaveUndo(store, 1, 2) && DeepStart(store, 1) == Some((0, map[]))
            && SnapshotOf(rules, store, Genesis(), chain, 1)
            && StateAt(rules, Genesis(), chain, 1) == map[FIRST := Paid(1)]
            && Rebuild(rules, store.accounts + map[], chain[..1]) == Ok(map[FIRST := Paid(2), SECOND := Paid(1)])
            && !Reaches(rules, store, map[], chain[..1], StateAt(rules, Genesis(), chain, 1))
  {
    hide Replay, ApplyBlock, BlockEntries, Faithful, Same;
    var rules, store, chain := TwoPayments(), PrunedStore(), TwoBlocks();
    PrunedIsFaithful();
    TwoReplay();
    assert chain[..0] == [] && chain[..1] == [Paying(1)] && [Paying(1)][..0] == [];
    SameSelf(map[]);
    assert 2 !in store.undo;
    assert store.accounts + map[] == store.accounts && FIRST != SECOND;
    PayingBlock(Chain(store.accounts, []), 1, OurStore);
    assert Rebuild(rules, store.accounts, []) == Ok(store.accounts);
    assert store.accounts[FIRST := Paid(2)] == map[FIRST := Paid(2), SECOND := Paid(1)];
    EmptySnapshotFails(rules, store, Genesis(), chain, 1);
  }
}
