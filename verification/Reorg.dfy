/** Switching chains: undo (or replay from a snapshot) back to the fork, rebuild the window of
    immature coinbases, apply the branch. The result is the replay of the new chain. */
module Reorg {
  import opened Wrappers
  import opened Ledger
  import opened LedgerLaws
  import opened Body

  // ----- the transition sees accounts and immature sums only -----

  /** Two entry lists that hold back the same amounts from every address from a height on. */
  ghost predicate LedSame(x: seq<Entry>, y: seq<Entry>, from: nat) {
    forall a: Address, spend: nat :: spend >= from ==> Immature(x, a, spend) == Immature(y, a, spend)
  }

  ghost predicate ChainSame(c: Chain, d: Chain,
                            from: nat) { Same(c.accounts, d.accounts) && LedSame(c.led, d.led, from) }

  ghost predicate SameOutcome(x: Result<State, Reject>, y: Result<State, Reject>) {
    if x.Ok? then y.Ok? && Same(x.value, y.value) else y == x
  }

  lemma SpendableSame(x: seq<Entry>, y: seq<Entry>, from: nat, a: Address, balance: U128, spend: nat)
    requires LedSame(x, y, from) && spend >= from
    ensures Spendable(x, a, balance, spend) == Spendable(y, a, balance, spend)
  {
    hide Immature;
    assert Immature(x, a, spend) == Immature(y, a, spend);
  }

  lemma CreditedOutcome(s: State, t: State, a: Address, amount: U128)
    requires Same(s, t)
    ensures SameOutcome(Credited(s, a, amount), Credited(t, a, amount))
  {
    hide Same;
    SameAt(s, t, a);
    if Credited(s, a, amount).Ok? {
      SameUpdate(s, t, a, Account(Get(s, a).balance + amount, Get(s, a).nonce));
    }
  }

  lemma TxOutcome(rules: Rules, s: State, t: State, x: seq<Entry>, y: seq<Entry>, height: nat, tx: Tx, i: nat)
    requires !tx.Coinbase? && Same(s, t) && LedSame(x, y, height)
    ensures SameOutcome(ApplyTx(rules, s, x, height, tx, i), ApplyTx(rules, t, y, height, tx, i))
  {
    hide Same, Spendable, LedSame, Credited;
    var from := rules.From(tx);
    SameAt(s, t, from);
    var acct := Get(s, from);
    SpendableSame(x, y, height, from, acct.balance, height);
    if ApplyTx(rules, s, x, height, tx, i).Ok? || (tx.Transfer? && acct.nonce < MAX_U64
                                                   && tx.amount + tx.fee <= acct.balance) {
      var next := Account(acct.balance - (if tx.Transfer? then tx.amount + tx.fee else tx.fee), acct.nonce + 1);
      SameUpdate(s, t, from, next);
      if tx.Transfer? {
        CreditedOutcome(s[from := next], t[from := next], tx.to, tx.amount);
      }
    }
  }

  lemma {:induction false} BodyOutcome(rules: Rules, s: State, t: State, x: seq<Entry>, y: seq<Entry>, height: nat,
                                       body: Checked, n: nat)
    requires body.Valid() && 1 <= n <= |body.txs| && Same(s, t) && LedSame(x, y, height)
    ensures SameOutcome(ApplyFirst(rules, s, x, height, body, n), ApplyFirst(rules, t, y, height, body, n))
  {
    hide Same, LedSame, ApplyTx, Credited;
    if n == 1 {
      CreditedOutcome(s, t, body.Cb().to, body.Credit());
    } else {
      BodyOutcome(rules, s, t, x, y, height, body, n - 1);
      var a, b := ApplyFirst(rules, s, x, height, body, n - 1), ApplyFirst(rules, t, y, height, body, n - 1);
      if a.Ok? {
        TxOutcome(rules, a.value, b.value, x, y, height, body.txs[n - 1], n - 1);
      }
    }
  }

  lemma LedSameSnoc(x: seq<Entry>, y: seq<Entry>, e: Entry, from: nat)
    requires LedSame(x, y, from)
    ensures LedSame(x + [e], y + [e], from)
  {
    assert (x + [e])[..|x|] == x && (y + [e])[..|y|] == y;
  }

  /** A block is accepted on one exactly when it is on the other, for the same reason, and
      what it leads to is the same again. */
  lemma BlockOutcome(rules: Rules, c: Chain, d: Chain, b: Block)
    requires ChainSame(c, d, b.header.height)
    ensures var x, y := ApplyBlock(rules, c, b, Untrusted), ApplyBlock(rules, d, b, Untrusted);
            if x.Ok? then y.Ok? && ChainSame(x.value, y.value, b.header.height) else y == x
  {
    hide Same, LedSame, CheckBody, ApplyFirst;
    if CheckBody(rules, b.header, b.raw, Untrusted).Ok? {
      CheckedIsValid(rules, b.header, b.raw, Untrusted);
      var body := CheckBody(rules, b.header, b.raw, Untrusted).value;
      LedSameSnoc(c.led, d.led, Entry(b.header.height, body.Cb().to, body.Credit()), b.header.height);
      BodyOutcome(rules, c.accounts, d.accounts, WithCoinbase(c.led, b.header.height, body),
                  WithCoinbase(d.led, b.header.height, body), b.header.height, body, |body.txs|);
    }
  }

  lemma LedSameLater(x: seq<Entry>, y: seq<Entry>, from: nat, from': nat)
    requires LedSame(x, y, from) && from <= from'
    ensures LedSame(x, y, from')
  {
  }

  lemma {:induction false} ReplaySame(rules: Rules, c: Chain, d: Chain, blocks: seq<Block>, first: nat)
    requires ChainSame(c, d, first) && Heights(blocks, first)
    ensures var x, y := Replay(rules, c, blocks), Replay(rules, d, blocks);
            if x.Ok? then y.Ok? && ChainSame(x.value, y.value, first + |blocks|) else y == x
  {
    hide Same, LedSame, ApplyBlock;
    if blocks != [] {
      var n := |blocks| - 1;
      ReplaySame(rules, c, d, blocks[..n], first);
      var x, y := Replay(rules, c, blocks[..n]), Replay(rules, d, blocks[..n]);
      if x.Ok? {
        BlockOutcome(rules, x.value, y.value, blocks[n]);
        if ApplyBlock(rules, x.value, blocks[n], Untrusted).Ok? {
          LedSameLater(ApplyBlock(rules, x.value, blocks[n], Untrusted).value.led,
                       ApplyBlock(rules, y.value, blocks[n], Untrusted).value.led, first + n, first + |blocks|);
        }
      }
    }
  }

  // ----- the entries of a chain, and the window that matters -----

  /** The entry a stored body gives, if it parses and starts with a coinbase; the flag tells
      a credit that does not fit. */
  function BlockEntries(rules: Rules, height: nat, raw: Bytes): (seq<Entry>, bool) {
    match rules.parse(raw)
    case None => ([], true)
    case Some(records) =>
      if records == [] then ([], true)
      else
        match rules.decode(records[0])
        case None => ([], true)
        case Some(tx) =>
          if !tx.Coinbase? then ([], true)
          else if tx.reward + tx.fees > MAX_U128 then ([], false)
          else ([Entry(height, tx.to, tx.reward + tx.fees)], true)
  }

  function ChainEntries(rules: Rules, blocks: seq<Block>): seq<Entry> {
    if blocks == [] then []
    else
      var b := blocks[|blocks| - 1];
      ChainEntries(rules, blocks[..|blocks| - 1]) + BlockEntries(rules, b.header.height, b.raw).0
  }

  lemma {:induction false} DecodedFirst(rules: Rules, records: seq<Bytes>, n: nat)
    requires 1 <= n <= |records| && DecodeFirst(rules, records, n).Ok?
    ensures DecodeFirst(rules, records, n).value != []
    ensures rules.decode(records[0]) == Some(DecodeFirst(rules, records, n).value[0])
  {
    if n > 1 {
      DecodedFirst(rules, records, n - 1);
    }
  }

  lemma AcceptedEntry(rules: Rules, c: Chain, b: Block)
    requires ApplyBlock(rules, c, b, Untrusted).Ok?
    ensures BlockEntries(rules, b.header.height, b.raw).1
    ensures ApplyBlock(rules, c, b, Untrusted).value.led == c.led + BlockEntries(rules, b.header.height, b.raw).0
  {
    hide ApplyFirst, DecodeFirst, CheckAuthorities, SecondCoinbase, Fees;
    CheckedIsValid(rules, b.header, b.raw, Untrusted);
    var records := rules.parse(b.raw).value;
    DecodedFirst(rules, records, |records|);
  }

  lemma {:induction false} ReplayEntries(rules: Rules, start: Chain, blocks: seq<Block>)
    requires Replay(rules, start, blocks).Ok?
    ensures Replay(rules, start, blocks).value.led == start.led + ChainEntries(rules, blocks)
  {
    hide ApplyBlock, BlockEntries;
    if blocks != [] {
      var front, b := blocks[..|blocks| - 1], blocks[|blocks| - 1];
      ReplayEntries(rules, start, front);
      AcceptedEntry(rules, Replay(rules, start, front).value, b);
    }
  }

  lemma {:induction false} ImmatureAppend(x: seq<Entry>, y: seq<Entry>, a: Address, spend: nat)
    ensures Immature(x + y, a, spend) == Immature(x, a, spend) + Immature(y, a, spend)
  {
    if y == [] {
      assert x + y == x;
    } else {
      ImmatureAppend(x, y[..|y| - 1], a, spend);
      assert (x + y)[..|x + y| - 1] == x + y[..|y| - 1];
    }
  }

  lemma {:induction false} AllMature(x: seq<Entry>, a: Address, spend: nat)
    requires forall i :: 0 <= i < |x| ==> Mature(x[i].height, spend)
    ensures Immature(x, a, spend) == 0
  {
    if x != [] {
      AllMature(x[..|x| - 1], a, spend);
    }
  }

  /** Entries that are mature from a height on may be dropped. */
  lemma DropMature(x: seq<Entry>, y: seq<Entry>, from: nat)
    requires forall i :: 0 <= i < |x| ==> Mature(x[i].height, from)
    ensures LedSame(x + y, y, from)
  {
    forall a: Address, spend: nat | spend >= from ensures Immature(x + y, a, spend) == Immature(y, a, spend) {
      ImmatureAppend(x, y, a, spend);
      AllMature(x, a, spend);
    }
  }

  lemma {:induction false} EntriesAppend(rules: Rules, x: seq<Block>, y: seq<Block>)
    ensures ChainEntries(rules, x + y) == ChainEntries(rules, x) + ChainEntries(rules, y)
  {
    hide BlockEntries;
    if y == [] {
      assert x + y == x;
    } else {
      EntriesAppend(rules, x, y[..|y| - 1]);
      assert (x + y)[..|x + y| - 1] == x + y[..|y| - 1];
    }
  }

  lemma {:induction false} EntryHeights(rules: Rules, blocks: seq<Block>, first: nat)
    requires Heights(blocks, first)
    ensures forall i :: 0 <= i < |ChainEntries(rules, blocks)| ==>
              first <= ChainEntries(rules, blocks)[i].height < first + |blocks|
  {
    if blocks != [] {
      EntryHeights(rules, blocks[..|blocks| - 1], first);
    }
  }

  // ----- the store -----

  datatype Store = Store(
    accounts: State,
    bodies: map<nat, Bytes>,
    headers: map<nat, Header>,
    undo: map<nat, seq<UndoRec>>,
    checkpoint: nat -> Option<nat>,
    replayFloor: nat,
    snapshot: nat -> Option<State>)

  /** The entries of the genesis body, if the store has one. */
  function GenesisEntries(rules: Rules, store: Store): seq<Entry> {
    if 0 in store.bodies then BlockEntries(rules, 0, store.bodies[0]).0 else []
  }

  function StateAt(rules: Rules, start: Chain, chain: seq<Block>, h: nat): State
    requires h <= |chain| && Replay(rules, start, chain[..h]).Ok?
  {
    Replay(rules, start, chain[..h]).value.accounts
  }

  /** The store of a node whose canonical chain is `chain` on top of genesis: its accounts are
      those of the replay, its bodies and headers are the chain's, and each undo list is one
      the validator reported for that height. */
  ghost predicate Faithful(rules: Rules, store: Store, start: Chain, chain: seq<Block>) {
    && Heights(chain, 1) && start.led == GenesisEntries(rules, store)
    && (0 in store.bodies ==> BlockEntries(rules, 0, store.bodies[0]).1)
    && (forall h :: 0 <= h <= |chain| ==> Replay(rules, start, chain[..h]).Ok?)
    && Same(store.accounts, StateAt(rules, start, chain, |chain|))
    && (forall i :: 0 <= i < |chain| ==> Holds(store, i + 1, chain[i]))
    && (forall h :: h in store.undo && 1 <= h <= |chain| ==>
          Undoes(store.undo[h], StateAt(rules, start, chain, h - 1), StateAt(rules, start, chain, h)))
  }

  predicate Holds(store: Store, h: nat, b: Block) {
    h in store.bodies && h in store.headers && Block(store.headers[h], store.bodies[h]) == b
  }

  /** A list the validator reported for a block that led from one state to the other. */
  ghost predicate Undoes(undo: seq<UndoRec>, before: State, after: State) {
    exists order, deltas :: Describes(order, undo, deltas, before, after)
  }

  function WindowStart(at: nat): nat { if at < MATURITY - 1 then 0 else at - (MATURITY - 1) }

  /** Entries of the stored bodies from one height up to another. */
  function StoredEntries(rules: Rules, store: Store, from: nat, end: nat): seq<Entry>
    requires from <= end
  {
    if from == end then []
    else StoredEntries(rules, store, from, end - 1)
         + if end - 1 in store.bodies then BlockEntries(rules, end - 1, store.bodies[end - 1]).0 else []
  }

  /** The ledger rebuilt from the bodies of the last maturity window. */
  method BuildLedger(rules: Rules, store: Store, at: nat) returns (r: Result<seq<Entry>, Reject>)
    ensures r.Ok? ==> r.value == StoredEntries(rules, store, WindowStart(at), at + 1)
    ensures r.Ok? <==> forall h :: WindowStart(at) <= h <= at && h in store.bodies ==>
                         BlockEntries(rules, h, store.bodies[h]).1
    ensures r.Err? ==> r.error == ArithmeticOverflow
  {
    hide BlockEntries;
    var from := WindowStart(at);
    var led := [];
    for h := from to at + 1
      invariant led == StoredEntries(rules, store, from, h)
      invariant forall k :: from <= k < h && k in store.bodies ==> BlockEntries(rules, k, store.bodies[k]).1
    {
      if h in store.bodies {
        var e := BlockEntries(rules, h, store.bodies[h]);
        if !e.1 {
          return Err(ArithmeticOverflow);
        }
        led := led + e.0;
      }
    }
    r := Ok(led);
  }

  lemma {:induction false} StoredAreChain(rules: Rules, store: Store, start: Chain, chain: seq<Block>, from: nat,
                                          end: nat)
    requires Faithful(rules, store, start, chain) && 1 <= from <= end <= |chain| + 1
    ensures StoredEntries(rules, store, from, end) == ChainEntries(rules, chain[from - 1..end - 1])
  {
    hide BlockEntries, Replay, Same, Undoes;
    if from < end {
      StoredAreChain(rules, store, start, chain, from, end - 1);
      var blocks := chain[from - 1..end - 1];
      assert blocks[..|blocks| - 1] == chain[from - 1..end - 2] && blocks[|blocks| - 1] == chain[end - 2];
    }
  }

  lemma {:induction false} StoredFromGenesis(rules: Rules, store: Store, end: nat)
    requires end >= 1
    ensures StoredEntries(rules, store, 0, end) == GenesisEntries(rules, store) + StoredEntries(rules, store, 1, end)
    decreases end
  {
    hide BlockEntries;
    if end > 1 {
      StoredFromGenesis(rules, store, end - 1);
    }
  }

  /** The window holds back what the whole history does, for every block that can follow. */
  lemma WindowSuffices(rules: Rules, store: Store, start: Chain, chain: seq<Block>, at: nat)
    requires Faithful(rules, store, start, chain) && at <= |chain|
    ensures LedSame(Replay(rules, start, chain[..at]).value.led, StoredEntries(rules, store, WindowStart(at), at + 1),
                    at + 1)
  {
    hide BlockEntries, Replay, Same, LedSame, Immature, Undoes;
    var from := WindowStart(at);
    ReplayEntries(rules, start, chain[..at]);
    if from == 0 {
      StoredFromGenesis(rules, store, at + 1);
      StoredAreChain(rules, store, start, chain, 1, at + 1);
      assert chain[0..at] == chain[..at];
      LedSameSelf(start.led + ChainEntries(rules, chain[..at]), at + 1);
    } else {
      var past, kept := chain[..from - 1], chain[from - 1..at];
      StoredAreChain(rules, store, start, chain, from, at + 1);
      assert chain[..at] == past + kept;
      EntriesAppend(rules, past, kept);
      EntryHeights(rules, past, 1);
      GenesisHeight(rules, store);
      DropMature(start.led + ChainEntries(rules, past), ChainEntries(rules, kept), at + 1);
      assert start.led + ChainEntries(rules, chain[..at]) ==
             start.led + ChainEntries(rules, past) + ChainEntries(rules, kept);
    }
  }

  lemma LedSameSelf(x: seq<Entry>, from: nat)
    ensures LedSame(x, x, from)
  {
  }

  lemma GenesisHeight(rules: Rules, store: Store)
    ensures forall i :: 0 <= i < |GenesisEntries(rules, store)| ==> GenesisEntries(rules, store)[i].height == 0
  {
  }

  // ----- rolling back -----

  predicate HaveUndo(store: Store, fork: nat, tip: nat) { forall h :: fork < h <= tip ==> h in store.undo }

  lemma UndoStep(rules: Rules, store: Store, start: Chain, chain: seq<Block>, h: nat, s: State)
    requires Faithful(rules, store, start, chain) && 1 <= h <= |chain| && h in store.undo
    requires Same(s, StateAt(rules, start, chain, h))
    ensures Same(Undone(s, store.undo[h]), StateAt(rules, start, chain, h - 1))
  {
    hide Replay, Same, Undone, Describes, Committed;
    var before, after := StateAt(rules, start, chain, h - 1), StateAt(rules, start, chain, h);
    assert Undoes(store.undo[h], before, after);
    var order, deltas :| Describes(order, store.undo[h], deltas, before, after);
    UndoRestores(order, store.undo[h], deltas, before, after, s);
  }

  /** Top down, the undo lists lead back to the accounts at the fork. */
  method RollBack(rules: Rules, store: Store, o: Overlay, fork: nat, tip: nat, ghost start: Chain,
                  ghost chain: seq<Block>)
    requires Faithful(rules, store, start, chain) && fork <= tip == |chain| && HaveUndo(store, fork, tip)
    requires Same(o.View(), store.accounts)
    modifies o`accounts
    ensures Same(o.View(), StateAt(rules, start, chain, fork))
  {
    hide Replay, Same, Undone, Overlay.View, Undoes;
    var h := tip;
    SameTrans(o.View(), store.accounts, StateAt(rules, start, chain, tip));
    while h > fork
      invariant fork <= h <= tip
      invariant Same(o.View(), StateAt(rules, start, chain, h))
    {
      ghost var was := o.View();
      o.ApplyUndo(store.undo[h]);
      UndoStep(rules, store, start, chain, h, was);
      h := h - 1;
    }
  }

  // ----- replaying from a snapshot -----

  lemma TrustedAuthority(rules: Rules, txs: seq<Tx>, n: nat)
    requires n <= |txs| && CheckAuthorities(rules, Untrusted, txs, n).None?
    ensures CheckAuthorities(rules, OurStore, txs, n).None?
  {
    if n > 0 {
      TrustedAuthority(rules, txs, n - 1);
    }
  }

  /** A body once accepted from others passes the lighter checks for the own store. */
  lemma TrustedBody(rules: Rules, b: Block)
    requires CheckBody(rules, b.header, b.raw, Untrusted).Ok?
    ensures CheckBody(rules, b.header, b.raw, OurStore) == CheckBody(rules, b.header, b.raw, Untrusted)
  {
    hide DecodeFirst, SecondCoinbase, Fees, CheckTotals;
    var records := rules.parse(b.raw).value;
    var txs := DecodeFirst(rules, records, |records|).value;
    TrustedAuthority(rules, txs, |txs|);
  }

  /** Holding back less accepts the same spends. */
  lemma FewerHeld(rules: Rules, s: State, x: seq<Entry>, y: seq<Entry>, height: nat, tx: Tx, i: nat)
    requires !tx.Coinbase? && ApplyTx(rules, s, y, height, tx, i).Ok?
    requires forall a: Address :: Immature(x, a, height) <= Immature(y, a, height)
    ensures ApplyTx(rules, s, x, height, tx, i) == ApplyTx(rules, s, y, height, tx, i)
  {
    hide Immature, Credited;
    var from := rules.From(tx);
    assert Immature(x, from, height) <= Immature(y, from, height);
  }

  lemma {:induction false} FewerHeldBody(rules: Rules, s: State, x: seq<Entry>, y: seq<Entry>, height: nat,
                                         body: Checked, n: nat)
    requires body.Valid() && 1 <= n <= |body.txs| && ApplyFirst(rules, s, y, height, body, n).Ok?
    requires forall a: Address :: Immature(x, a, height) <= Immature(y, a, height)
    ensures ApplyFirst(rules, s, x, height, body, n) == ApplyFirst(rules, s, y, height, body, n)
  {
    hide Immature, ApplyTx, Credited;
    if n > 1 {
      FewerHeldBody(rules, s, x, y, height, body, n - 1);
      FewerHeld(rules, ApplyFirst(rules, s, y, height, body, n - 1).value, x, y, height, body.txs[n - 1], n - 1);
    }
  }

  lemma OnlyOwn(led: seq<Entry>, e: Entry, height: nat)
    ensures forall a: Address :: Immature([e], a, height) <= Immature(led + [e], a, height)
  {
    forall a: Address ensures Immature([e], a, height) <= Immature(led + [e], a, height) {
      ImmatureAppend(led, [e], a, height);
    }
  }

  /** An accepted block is accepted again with trust and a ledger of its own, from the same
      accounts, and leads to the same accounts. */
  lemma AcceptedAgain(rules: Rules, c: Chain, s: State, b: Block)
    requires ApplyBlock(rules, c, b, Untrusted).Ok? && Same(c.accounts, s)
    ensures var r := ApplyBlock(rules, Chain(s, []), b, OurStore);
            r.Ok? && Same(ApplyBlock(rules, c, b, Untrusted).value.accounts, r.value.accounts)
  {
    hide Same, CheckBody, ApplyFirst, Immature;
    TrustedBody(rules, b);
    CheckedIsValid(rules, b.header, b.raw, Untrusted);
    var body, h := CheckBody(rules, b.header, b.raw, Untrusted).value, b.header.height;
    var own := WithCoinbase([], h, body);
    assert own == [Entry(h, body.Cb().to, body.Credit())];
    OnlyOwn(c.led, own[0], h);
    FewerHeldBody(rules, c.accounts, own, WithCoinbase(c.led, h, body), h, body, |body.txs|);
    LedSameSelf(own, h);
    BodyOutcome(rules, c.accounts, s, own, own, h, body, |body.txs|);
  }

  /** The deep path: stored blocks replayed with trust, each with a ledger of its own. */
  function Rebuild(rules: Rules, s: State, blocks: seq<Block>): Result<State, Reject> {
    if blocks == [] then Ok(s)
    else
      var r := Rebuild(rules, s, blocks[..|blocks| - 1]);
      if r.Err? then r
      else
        match ApplyBlock(rules, Chain(r.value, []), blocks[|blocks| - 1], OurStore)
        case Ok(c) => Ok(c.accounts)
        case Err(e) => Err(e)
  }

  lemma {:induction false} RebuildMatches(rules: Rules, c: Chain, s: State, blocks: seq<Block>)
    requires Replay(rules, c, blocks).Ok? && Same(c.accounts, s)
    ensures Rebuild(rules, s, blocks).Ok?
            && Same(Replay(rules, c, blocks).value.accounts, Rebuild(rules, s, blocks).value)
  {
    hide Same, ApplyBlock;
    if blocks != [] {
      var front := blocks[..|blocks| - 1];
      RebuildMatches(rules, c, s, front);
      AcceptedAgain(rules, Replay(rules, c, front).value, Rebuild(rules, s, front).value, blocks[|blocks| - 1]);
    }
  }

  /** What some blocks do to one address, whatever the state. */
  function BlockNet(rules: Rules, b: Block, a: Address): (int, nat) {
    var checked := CheckBody(rules, b.header, b.raw, OurStore);
    if checked.Err? then (0, 0)
    else
      CheckedIsValid(rules, b.header, b.raw, OurStore);
      var n := |checked.value.txs|;
      (Net(rules, checked.value, n, a), Uses(Spent(rules, checked.value, n), a))
  }

  function BlocksNet(rules: Rules, blocks: seq<Block>, a: Address): (int, nat) {
    if blocks == [] then (0, 0)
    else
      var x, y := BlocksNet(rules, blocks[..|blocks| - 1], a), BlockNet(rules, blocks[|blocks| - 1], a);
      (x.0 + y.0, x.1 + y.1)
  }

  ghost predicate Moved(s: State, t: State, a: Address, net: (int, nat)) {
    Get(t, a).balance == Get(s, a).balance + net.0 && Get(t, a).nonce == Get(s, a).nonce + net.1
  }

  lemma BlockMoves(rules: Rules, c: Chain, b: Block, trust: Trust, a: Address)
    requires ApplyBlock(rules, c, b, trust).Ok?
    ensures Moved(c.accounts, ApplyBlock(rules, c, b, trust).value.accounts, a, BlockNet(rules, b, a))
  {
    hide CheckBody, ApplyFirst, Net, Uses, Spent;
    if trust == Untrusted {
      TrustedBody(rules, b);
    }
    CheckedIsValid(rules, b.header, b.raw, OurStore);
    var body := CheckBody(rules, b.header, b.raw, OurStore).value;
    BodyEffect(rules, c.accounts, WithCoinbase(c.led, b.header.height, body), b.header.height, body, |body.txs|, a);
  }

  lemma {:induction false} RebuildMoves(rules: Rules, s: State, blocks: seq<Block>, a: Address)
    requires Rebuild(rules, s, blocks).Ok?
    ensures Moved(s, Rebuild(rules, s, blocks).value, a, BlocksNet(rules, blocks, a))
  {
    hide ApplyBlock, BlockNet;
    if blocks != [] {
      var front := blocks[..|blocks| - 1];
      RebuildMoves(rules, s, front, a);
      BlockMoves(rules, Chain(Rebuild(rules, s, front).value, []), blocks[|blocks| - 1], OurStore, a);
    }
  }

  lemma {:induction false} ReplayMoves(rules: Rules, c: Chain, blocks: seq<Block>, a: Address)
    requires Replay(rules, c, blocks).Ok?
    ensures Moved(c.accounts, Replay(rules, c, blocks).value.accounts, a, BlocksNet(rules, blocks, a))
  {
    hide ApplyBlock, BlockNet;
    if blocks != [] {
      var front := blocks[..|blocks| - 1];
      ReplayMoves(rules, c, front, a);
      BlockMoves(rules, Replay(rules, c, front).value, blocks[|blocks| - 1], Untrusted, a);
    }
  }

  /** Every account the tip holds is in the snapshot, or is empty. */
  predicate NoStrays(accounts: State,
                     rows: State) { forall a :: a in accounts && a !in rows ==> accounts[a].IsAbsent() }

  lemma SeededSame(accounts: State, rows: State, s: State)
    requires Same(rows, s)
    ensures Same(accounts + rows, s) <==> NoStrays(accounts, rows)
  {
    var seeded := accounts + rows;
    if NoStrays(accounts, rows) {
      forall a: Address ensures Get(seeded, a) == Get(s, a) {
        assert Get(rows, a) == Get(s, a);
      }
    } else {
      var a :| a in accounts && a !in rows && !accounts[a].IsAbsent();
      assert Get(rows, a) == Get(s, a);
      assert Get(seeded, a) != Get(s, a);
    }
  }

  /** The deep path seeds the overlay with a snapshot but still reads addresses outside it
      from the tip. It yields the accounts at the fork exactly when the tip holds no account
      outside the snapshot. */
  lemma DeepReplayExact(rules: Rules, c: Chain, rows: State, accounts: State, blocks: seq<Block>)
    requires Replay(rules, c, blocks).Ok? && Same(rows, c.accounts)
    ensures (var r := Rebuild(rules, accounts + rows, blocks);
             r.Ok? && Same(Replay(rules, c, blocks).value.accounts, r.value))
            <==> NoStrays(accounts, rows)
  {
    hide Replay, Rebuild, BlocksNet, NoStrays;
    var seeded := accounts + rows;
    SeededSame(accounts, rows, c.accounts);
    if Same(seeded, c.accounts) {
      RebuildMatches(rules, c, seeded, blocks);
    }
    var r := Rebuild(rules, seeded, blocks);
    if r.Ok? && Same(Replay(rules, c, blocks).value.accounts, r.value) {
      forall a: Address ensures Get(seeded, a) == Get(c.accounts, a) {
        RebuildMoves(rules, seeded, blocks, a);
        ReplayMoves(rules, c, blocks, a);
      }
    }
  }

  // ----- the switch as it runs -----

  datatype Base = UndoWindow | DeepReplay(rewindTo: nat)

  datatype Refusal = ResyncRequired(fork: nat, floor: nat) | BranchInvalid(height: nat, cause: Reject)

  /** Whether the deep path has something to start from. */
  function DeepStart(store: Store, fork: nat): Option<(nat, State)> {
    match store.checkpoint(fork)
    case None => None
    case Some(c) =>
      if c < store.replayFloor then None
      else
        match store.snapshot(c)
        case None => None
        case Some(rows) => Some((c, rows))
  }

  lemma {:induction false} RebuildStuck(rules: Rules, s: State, blocks: seq<Block>, n: nat)
    requires n <= |blocks| && Rebuild(rules, s, blocks[..n]).Err?
    ensures Rebuild(rules, s, blocks) == Rebuild(rules, s, blocks[..n])
    decreases |blocks|
  {
    hide ApplyBlock;
    if n == |blocks| {
      assert blocks[..n] == blocks;
    } else {
      var front := blocks[..|blocks| - 1];
      assert front[..n] == blocks[..n];
      RebuildStuck(rules, s, front, n);
    }
  }

  lemma RebuildOutcome(rules: Rules, s: State, t: State, b: Block)
    requires Same(s, t)
    ensures var x, y := ApplyBlock(rules, Chain(s, []), b, OurStore), ApplyBlock(rules, Chain(t, []), b, OurStore);
            if x.Ok? then y.Ok? && Same(x.value.accounts, y.value.accounts) else y == x
  {
    hide Same, CheckBody, ApplyFirst;
    if CheckBody(rules, b.header, b.raw, OurStore).Ok? {
      CheckedIsValid(rules, b.header, b.raw, OurStore);
      var body := CheckBody(rules, b.header, b.raw, OurStore).value;
      var own := WithCoinbase([], b.header.height, body);
      LedSameSelf(own, b.header.height);
      BodyOutcome(rules, s, t, own, own, b.header.height, body, |body.txs|);
    }
  }

  /** What a block reported leads from one state to the other and back. */
  ghost predicate Step(v: ValidatedBlock, before: State, after: State) {
    exists order :: Describes(order, v.undo, v.deltas, before, after)
  }

  lemma StepSame(v: ValidatedBlock, s: State, t: State, s1: State, t1: State)
    requires Step(v, s, t) && Same(s, s1) && Same(t, t1)
    ensures Step(v, s1, t1)
  {
    var order :| Describes(order, v.undo, v.deltas, s, t);
    forall i | 0 <= i < |order| ensures v.undo[i] == Record(s1, order[i]) && v.deltas[i] == Delta(t1, order[i]) {
      assert Get(s, order[i]) == Get(s1, order[i]) && Get(t, order[i]) == Get(t1, order[i]);
    }
    forall a: Address | a !in order ensures Get(t1, a) == Get(s1, a) {
      assert Get(s, a) == Get(s1, a) && Get(t, a) == Get(t1, a);
    }
    assert Describes(order, v.undo, v.deltas, s1, t1);
  }

  /** The reports of the deep path: each belongs to its stored block. */
  ghost predicate Rebuilt(rules: Rules, s: State, blocks: seq<Block>, ws: seq<ValidatedBlock>) {
    |ws| <= |blocks| && forall i :: 0 <= i < |ws| ==> RebuiltAt(rules, s, blocks, ws[i], i)
  }

  ghost predicate RebuiltAt(rules: Rules, s: State, blocks: seq<Block>, w: ValidatedBlock, i: nat) {
    && i < |blocks| && Rebuild(rules, s, blocks[..i]).Ok? && Rebuild(rules, s, blocks[..i + 1]).Ok?
    && Step(w, Rebuild(rules, s, blocks[..i]).value, Rebuild(rules, s, blocks[..i + 1]).value)
  }

  /** Replays stored blocks onto the overlay. */
  method ReplayStored(rules: Rules, store: Store, o: Overlay, c: nat, fork: nat, ghost s: State,
                      ghost blocks: seq<Block>)
      returns (r: Result<seq<ValidatedBlock>, Refusal>)
    requires c <= fork && |blocks| == fork - c && Same(s, o.View())
    requires forall i :: 0 <= i < |blocks| ==> Holds(store, c + 1 + i, blocks[i])
    modifies o
    ensures var spec := Rebuild(rules, s, blocks);
            if spec.Ok? then
              r.Ok? && Same(spec.value, o.View()) && |r.value| == |blocks| && Rebuilt(rules, s, blocks, r.value)
            else r.Err? && r.error.BranchInvalid? && r.error.cause == spec.error
  {
    hide ApplyBlock, Same, CheckBody, Overlay.View, Describes;
    var out := [];
    for i := 0 to fork - c
      invariant |out| == i && Rebuilt(rules, s, blocks, out)
      invariant Rebuild(rules, s, blocks[..i]).Ok? && Same(Rebuild(rules, s, blocks[..i]).value, o.View())
    {
      var h := c + 1 + i;
      assert Holds(store, h, blocks[i]);
      var throwaway := new CoinbaseLedger();
      ghost var before, here := o.View(), Rebuild(rules, s, blocks[..i]).value;
      var v := ValidateBlockBody(rules, o, throwaway, store.headers[h], store.bodies[h], OurStore);
      assert blocks[..i + 1][..i] == blocks[..i] && blocks[..i + 1][i] == blocks[i];
      RebuildOutcome(rules, here, before, blocks[i]);
      if v.Err? {
        RebuildStuck(rules, s, blocks, i + 1);
        return Err(BranchInvalid(h, v.error));
      }
      ghost var x := ApplyBlock(rules, Chain(here, []), blocks[i], OurStore).value.accounts;
      ghost var y := ApplyBlock(rules, Chain(before, []), blocks[i], OurStore).value.accounts;
      SameFlip(o.View(), y);
      SameTrans(x, y, o.View());
      assert Step(v.value, before, o.View());
      SameFlip(here, before);
      SameFlip(x, o.View());
      StepSame(v.value, before, o.View(), here, x);
      assert RebuiltAt(rules, s, blocks, v.value, i);
      out := out + [v.value];
    }
    assert blocks[..|blocks|] == blocks;
    r := Ok(out);
  }

  /** From the replay's own accounts the reports are those of the replay. */
  lemma RebuiltSteps(rules: Rules, c: Chain, s: State, blocks: seq<Block>, ws: seq<ValidatedBlock>)
    requires Replay(rules, c, blocks).Ok? && Same(c.accounts, s) && |ws| == |blocks| && Rebuilt(rules, s, blocks, ws)
    ensures Steps(rules, c, blocks, ws, |blocks|)
  {
    hide Replay, Rebuild, Same, Step;
    forall i | 0 <= i < |blocks| ensures StepAt(rules, c, blocks, ws[i], i) {
      assert RebuiltAt(rules, s, blocks, ws[i], i);
      ReplayPrefix(rules, c, blocks, i);
      ReplayPrefix(rules, c, blocks, i + 1);
      RebuildMatches(rules, c, s, blocks[..i]);
      RebuildMatches(rules, c, s, blocks[..i + 1]);
      var x, y := Replay(rules, c, blocks[..i]).value.accounts, Replay(rules, c, blocks[..i + 1]).value.accounts;
      var t, u := Rebuild(rules, s, blocks[..i]).value, Rebuild(rules, s, blocks[..i + 1]).value;
      SameFlip(x, t);
      SameFlip(y, u);
      StepSame(ws[i], t, u, x, y);
    }
  }

  lemma ReplayPrefix(rules: Rules, c: Chain, blocks: seq<Block>, n: nat)
    requires n <= |blocks| && Replay(rules, c, blocks).Ok?
    ensures Replay(rules, c, blocks[..n]).Ok?
  {
    hide Replay;
    if Replay(rules, c, blocks[..n]).Err? {
      ReplayStuck(rules, c, blocks, n);
    }
  }

  lemma SameFlip(s: State, t: State)
    requires Same(s, t)
    ensures Same(t, s)
  {
    forall a: Address ensures Get(t, a) == Get(s, a) {
      assert Get(s, a) == Get(t, a);
    }
  }

  /** Back to the fork. With every undo list at hand the overlay shows the accounts at the
      fork; otherwise it shows what the deep path rebuilds, or the switch is refused. */
  method RewindToFork(rules: Rules, store: Store, o: Overlay, l: CoinbaseLedger, fork: nat, tip: nat,
                      ghost start: Chain, ghost chain: seq<Block>)
      returns (r: Result<Base, Refusal>, replayed: seq<ValidatedBlock>)
    requires Faithful(rules, store, start, chain) && fork <= tip == |chain|
    requires o.store == store.accounts && o.View() == store.accounts
    requires DeepStart(store, fork).Some? ==> DeepStart(store, fork).value.0 <= fork
    modifies o, l
    ensures HaveUndo(store, fork, tip) ==>
              r == Ok(UndoWindow) && replayed == [] && Same(o.View(), StateAt(rules, start, chain, fork))
    ensures !HaveUndo(store, fork, tip) ==>
              match DeepStart(store, fork)
              case None => r == Err(ResyncRequired(fork, store.replayFloor))
              case Some((c, rows)) =>
                var spec := Rebuild(rules, store.accounts + rows, chain[c..fork]);
                if spec.Ok? then
                  && r == Ok(DeepReplay(c)) && Same(spec.value, o.View()) && |replayed| == fork - c
                  && Rebuilt(rules, store.accounts + rows, chain[c..fork], replayed)
                else r.Err? && r.error.BranchInvalid? && r.error.cause == spec.error
    ensures r.Ok? ==> LedSame(Replay(rules, start, chain[..fork]).value.led, l.entries, fork + 1)
  {
    hide Same, Replay, Rebuild, LedSame, StoredEntries, BlockEntries, Undoes, RebuiltAt;
    replayed := [];
    var h, all := tip, true;
    while h > fork
      invariant fork <= h <= tip
      invariant all && forall k :: h < k <= tip ==> k in store.undo
    {
      if h !in store.undo {
        all := false;
        break;
      }
      h := h - 1;
    }
    assert all == HaveUndo(store, fork, tip);
    var base := UndoWindow;
    if all {
      SameSelf(o.View());
      RollBack(rules, store, o, fork, tip, start, chain);
    } else {
      var from := DeepStart(store, fork);
      if from.None? {
        r := Err(ResyncRequired(fork, store.replayFloor));
        return;
      }
      var c, rows := from.value.0, from.value.1;
      o.Seed(rows);
      SameSelf(o.View());
      var again := ReplayStored(rules, store, o, c, fork, o.View(), chain[c..fork]);
      if again.Err? {
        r := Err(again.error);
        return;
      }
      base, replayed := DeepReplay(c), again.value;
    }
    WindowSuffices(rules, store, start, chain, fork);
    BodiesCredit(rules, store, start, chain, fork);
    var led := BuildLedger(rules, store, fork);
    l.entries := led.value;
    r := Ok(base);
  }

  lemma SameSelf(s: State)
    ensures Same(s, s)
  {
  }

  /** No stored coinbase overflows. */
  lemma BodiesCredit(rules: Rules, store: Store, start: Chain, chain: seq<Block>, at: nat)
    requires Faithful(rules, store, start, chain) && at <= |chain|
    ensures forall h :: 0 <= h <= at && h in store.bodies ==> BlockEntries(rules, h, store.bodies[h]).1
  {
    hide BlockEntries, ApplyBlock, Same, Undoes;
    forall h | 1 <= h <= at && h in store.bodies ensures BlockEntries(rules, h, store.bodies[h]).1 {
      var b := chain[h - 1];
      assert Holds(store, h, b);
      assert chain[..h][..h - 1] == chain[..h - 1] && chain[..h][h - 1] == b;
      AcceptedEntry(rules, Replay(rules, start, chain[..h - 1]).value, b);
    }
  }

  lemma {:induction false} ReplayStuck(rules: Rules, c: Chain, blocks: seq<Block>, n: nat)
    requires n <= |blocks| && Replay(rules, c, blocks[..n]).Err?
    ensures Replay(rules, c, blocks) == Replay(rules, c, blocks[..n])
    decreases |blocks|
  {
    hide ApplyBlock;
    if n == |blocks| {
      assert blocks[..n] == blocks;
    } else {
      var front := blocks[..|blocks| - 1];
      assert front[..n] == blocks[..n];
      ReplayStuck(rules, c, front, n);
    }
  }

  /** The first n reports belong to the first n blocks replayed from c. */
  ghost predicate Steps(rules: Rules, c: Chain, branch: seq<Block>, vs: seq<ValidatedBlock>, n: nat) {
    && n == |vs| <= |branch|
    && (forall i :: 0 <= i < n ==> StepAt(rules, c, branch, vs[i], i))
  }

  ghost predicate StepAt(rules: Rules, c: Chain, branch: seq<Block>, v: ValidatedBlock, i: nat) {
    && i < |branch| && Replay(rules, c, branch[..i]).Ok? && Replay(rules, c, branch[..i + 1]).Ok?
    && Step(v, Replay(rules, c, branch[..i]).value.accounts, Replay(rules, c, branch[..i + 1]).value.accounts)
  }

  /** The position of the first block the replay refuses. */
  function BadAt(rules: Rules, c: Chain, blocks: seq<Block>): (i: nat)
    requires Replay(rules, c, blocks).Err?
    ensures i < |blocks|
  {
    var front := blocks[..|blocks| - 1];
    if Replay(rules, c, front).Err? then BadAt(rules, c, front) else |blocks| - 1
  }

  /** It is where the accepted prefix ends. */
  lemma {:induction false} BadIs(rules: Rules, c: Chain, blocks: seq<Block>, i: nat)
    requires i < |blocks| && Replay(rules, c, blocks[..i]).Ok? && Replay(rules, c, blocks[..i + 1]).Err?
    ensures Replay(rules, c, blocks).Err? && BadAt(rules, c, blocks) == i
    decreases |blocks|
  {
    hide ApplyBlock;
    var front := blocks[..|blocks| - 1];
    if i == |blocks| - 1 {
      assert blocks[..i + 1] == blocks;
    } else {
      assert front[..i] == blocks[..i] && front[..i + 1] == blocks[..i + 1];
      BadIs(rules, c, front, i);
    }
  }

  lemma {:induction false} BadSplits(rules: Rules, c: Chain, blocks: seq<Block>)
    requires Replay(rules, c, blocks).Err?
    ensures var i := BadAt(rules, c, blocks);
            Replay(rules, c, blocks[..i]).Ok? && Replay(rules, c, blocks[..i + 1]).Err?
  {
    hide ApplyBlock;
    var front := blocks[..|blocks| - 1];
    if Replay(rules, c, front).Err? {
      BadSplits(rules, c, front);
      var i := BadAt(rules, c, front);
      assert front[..i] == blocks[..i] && front[..i + 1] == blocks[..i + 1];
    } else {
      assert blocks[..|blocks|] == blocks;
    }
  }

  /** After an accepted part the first bad block is that of the rest. */
  lemma BadAppend(rules: Rules, c: Chain, xs: seq<Block>, ys: seq<Block>)
    requires Replay(rules, c, xs).Ok? && Replay(rules, Replay(rules, c, xs).value, ys).Err?
    ensures Replay(rules, c, xs + ys).Err?
    ensures BadAt(rules, c, xs + ys) == |xs| + BadAt(rules, Replay(rules, c, xs).value, ys)
  {
    hide Replay, BadAt;
    var mid := Replay(rules, c, xs).value;
    var i := BadAt(rules, mid, ys);
    BadSplits(rules, mid, ys);
    ReplayAppend(rules, c, xs, ys[..i]);
    ReplayAppend(rules, c, xs, ys[..i + 1]);
    var all := xs + ys;
    assert all[..|xs| + i] == xs + ys[..i] && all[..|xs| + i + 1] == xs + ys[..i + 1];
    BadIs(rules, c, all, |xs| + i);
  }

  /** Applies the branch: accepted exactly when the replay of the branch is; otherwise the first
      block that is not is named by its height. */
  method ValidateBranch(rules: Rules, o: Overlay, l: CoinbaseLedger, branch: seq<Block>, ghost c: Chain,
                        ghost first: nat)
      returns (r: Result<seq<ValidatedBlock>, Refusal>)
    requires ChainSame(c, Chain(o.View(), l.entries), first) && Heights(branch, first)
    modifies o, l
    ensures var spec := Replay(rules, c, branch);
            if spec.Ok? then r.Ok? && Steps(rules, c, branch, r.value, |branch|) && Same(spec.value.accounts, o.View())
            else
              && r.Err? && r.error.BranchInvalid? && r.error.cause == spec.error
              && r.error.height == first + BadAt(rules, c, branch)
  {
    hide ApplyBlock, Same, LedSame, CheckBody, Overlay.View, Describes, BadAt;
    var out := [];
    for i := 0 to |branch|
      invariant |out| == i && Replay(rules, c, branch[..i]).Ok? && Steps(rules, c, branch, out, i)
      invariant ChainSame(Replay(rules, c, branch[..i]).value, Chain(o.View(), l.entries), first + i)
    {
      var b := branch[i];
      ghost var here, now := Replay(rules, c, branch[..i]).value, Chain(o.View(), l.entries);
      var v := ValidateBlockBody(rules, o, l, b.header, b.raw, Untrusted);
      assert branch[..i + 1][..i] == branch[..i] && branch[..i + 1][i] == b;
      BlockOutcome(rules, here, now, b);
      if v.Err? {
        ReplayStuck(rules, c, branch, i + 1);
        BadIs(rules, c, branch, i);
        return Err(BranchInvalid(b.header.height, v.error));
      }
      ghost var x, y := ApplyBlock(rules, here, b, Untrusted).value, ApplyBlock(rules, now, b, Untrusted).value;
      SameFlip(o.View(), y.accounts);
      SameTrans(x.accounts, y.accounts, o.View());
      LedSameLater(x.led, y.led, first + i, first + i + 1);
      SameFlip(here.accounts, now.accounts);
      SameFlip(x.accounts, o.View());
      StepSame(v.value, now.accounts, o.View(), here.accounts, x.accounts);
      out := out + [v.value];
    }
    assert branch[..|branch|] == branch;
    r := Ok(out);
  }

  /** The height the commits of a switch start above: the fork, or the snapshot's height. */
  function BaseHeight(base: Base, fork: nat): nat { if base.DeepReplay? then base.rewindTo else fork }

  lemma {:induction false} StepsAppend(rules: Rules, c: Chain, xs: seq<Block>, ws: seq<ValidatedBlock>, ys: seq<Block>,
                                       vs: seq<ValidatedBlock>)
    requires Replay(rules, c, xs).Ok? && Steps(rules, c, xs, ws, |xs|)
             && Steps(rules, Replay(rules, c, xs).value, ys, vs, |ys|)
    ensures Steps(rules, c, xs + ys, ws + vs, |xs + ys|)
  {
    hide Replay, Step;
    var all := xs + ys;
    forall i | 0 <= i < |all| ensures StepAt(rules, c, all, (ws + vs)[i], i) {
      if i < |xs| {
        assert all[..i] == xs[..i] && all[..i + 1] == xs[..i + 1];
        assert StepAt(rules, c, xs, ws[i], i);
      } else {
        var k := i - |xs|;
        assert all[..i] == xs + ys[..k] && all[..i + 1] == xs + ys[..k + 1];
        ReplayAppend(rules, c, xs, ys[..k]);
        ReplayAppend(rules, c, xs, ys[..k + 1]);
        assert StepAt(rules, Replay(rules, c, xs).value, ys, vs[k], k);
      }
    }
  }

  /** Executing a reorganisation: undo the rollback heights top down, then apply the branch.
      With the undo lists at hand, or a snapshot that covers the tip, it accepts exactly the
      branches whose replay from genesis is accepted, and ends in the accounts of that replay.
      The commits are one report for each block above the base, in order. A refusal names the
      first block that cannot be applied, or asks for a new start when there is nothing to go
      back by. */
  method Switch(rules: Rules, store: Store, o: Overlay, l: CoinbaseLedger, fork: nat, tip: nat, branch: seq<Block>,
                ghost start: Chain, ghost chain: seq<Block>)
      returns (r: Result<(Base, seq<ValidatedBlock>), Refusal>)
    requires Faithful(rules, store, start, chain) && fork <= tip == |chain| && Heights(branch, fork + 1)
    requires o.store == store.accounts && o.View() == store.accounts
    requires DeepStart(store, fork).Some? ==> SnapshotOf(rules, store, start, chain, fork)
    requires HaveUndo(store, fork, tip) || DeepStart(store, fork).None?
             || NoStrays(store.accounts, DeepStart(store, fork).value.1)
    modifies o, l
    ensures !CanRewind(store, fork, tip) ==> r == Err(ResyncRequired(fork, store.replayFloor))
    ensures CanRewind(store, fork, tip) ==>
              var spec := Replay(rules, start, chain[..fork] + branch);
              if spec.Ok? then r.Ok? && Same(spec.value.accounts, o.View()) && BaseOf(store, fork, tip, r.value.0)
              else
                && r.Err? && r.error.BranchInvalid? && r.error.cause == spec.error
                && r.error.height == 1 + BadAt(rules, start, chain[..fork] + branch)
    ensures r.Ok? ==>
              var at := BaseHeight(r.value.0, fork);
              at <= fork && Steps(rules, Replay(rules, start, chain[..at]).value, chain[at..fork] + branch, r.value.1,
                                  fork - at + |branch|)
  {
    hide Same, Replay, Rebuild, LedSame, NoStrays, Undoes, StoredEntries, BlockEntries, Rebuilt, Steps, BadAt;
    var back, replayed := RewindToFork(rules, store, o, l, fork, tip, start, chain);
    ghost var at := Replay(rules, start, chain[..fork]).value;
    if !HaveUndo(store, fork, tip) && DeepStart(store, fork).None? {
      return Err(back.error);
    }
    if !HaveUndo(store, fork, tip) {
      DeepReachesFork(rules, store, start, chain, fork);
      SameTrans(at.accounts, Rebuild(rules, store.accounts + DeepStart(store, fork).value.1,
                                     chain[DeepStart(store, fork).value.0..fork]).value, o.View());
    } else {
      SameFlip(o.View(), at.accounts);
    }
    ReplayAppend(rules, start, chain[..fork], branch);
    var applied := ValidateBranch(rules, o, l, branch, at, fork + 1);
    if applied.Err? {
      BadAppend(rules, start, chain[..fork], branch);
      return Err(applied.error);
    }
    if back.value.DeepReplay? {
      DeepSteps(rules, store, start, chain, fork, branch, replayed, applied.value);
    } else {
      assert chain[fork..fork] + branch == branch && replayed + applied.value == applied.value;
    }
    r := Ok((back.value, replayed + applied.value));
  }

  /** There is something to go back by: every undo list above the fork, or a snapshot. */
  predicate CanRewind(store: Store, fork: nat, tip: nat) { HaveUndo(store, fork, tip) || DeepStart(store, fork).Some? }

  predicate BaseOf(store: Store, fork: nat, tip: nat, base: Base) {
    if HaveUndo(store, fork, tip) then base == UndoWindow
    else DeepStart(store, fork).Some? && base == DeepReplay(DeepStart(store, fork).value.0)
  }

  lemma DeepSteps(rules: Rules, store: Store, start: Chain, chain: seq<Block>, fork: nat, branch: seq<Block>,
                  ws: seq<ValidatedBlock>,
                  vs: seq<ValidatedBlock>)
    requires Faithful(rules, store, start, chain) && fork <= |chain| && DeepStart(store, fork).Some?
    requires SnapshotOf(rules, store, start, chain, fork) && NoStrays(store.accounts, DeepStart(store, fork).value.1)
    requires var c, rows := DeepStart(store, fork).value.0, DeepStart(store, fork).value.1;
             |ws| == fork - c && Rebuilt(rules, store.accounts + rows, chain[c..fork], ws)
    requires Steps(rules, Replay(rules, start, chain[..fork]).value, branch, vs, |branch|)
    ensures var c := DeepStart(store, fork).value.0;
            Steps(rules, Replay(rules, start, chain[..c]).value, chain[c..fork] + branch, ws + vs, fork - c + |branch|)
  {
    hide Same, Replay, Rebuild, NoStrays, Undoes, Rebuilt, Steps;
    var c, rows := DeepStart(store, fork).value.0, DeepStart(store, fork).value.1;
    var at := Replay(rules, start, chain[..c]).value;
    assert chain[..fork] == chain[..c] + chain[c..fork];
    ReplayAppend(rules, start, chain[..c], chain[c..fork]);
    SeededSame(store.accounts, rows, at.accounts);
    SameFlip(store.accounts + rows, at.accounts);
    RebuiltSteps(rules, at, store.accounts + rows, chain[c..fork], ws);
    StepsAppend(rules, at, chain[c..fork], ws, branch, vs);
  }

  /** The snapshot the deep path starts from is the state at its height, at or below the fork. */
  ghost predicate SnapshotOf(rules: Rules, store: Store, start: Chain, chain: seq<Block>, fork: nat)
    requires Faithful(rules, store, start, chain) && fork <= |chain| && DeepStart(store, fork).Some?
  {
    var c, rows := DeepStart(store, fork).value.0, DeepStart(store, fork).value.1;
    c <= fork && Same(rows, StateAt(rules, start, chain, c))
  }

  lemma DeepReachesFork(rules: Rules, store: Store, start: Chain, chain: seq<Block>, fork: nat)
    requires Faithful(rules, store, start, chain) && fork <= |chain| && DeepStart(store, fork).Some?
    requires SnapshotOf(rules, store, start, chain, fork) && NoStrays(store.accounts, DeepStart(store, fork).value.1)
    ensures var c, rows := DeepStart(store, fork).value.0, DeepStart(store, fork).value.1;
            var r := Rebuild(rules, store.accounts + rows, chain[c..fork]);
            r.Ok? && Same(StateAt(rules, start, chain, fork), r.value)
  {
    hide Same, Replay, Rebuild, NoStrays, Undoes;
    var c, rows := DeepStart(store, fork).value.0, DeepStart(store, fork).value.1;
    assert chain[..fork] == chain[..c] + chain[c..fork];
    ReplayAppend(rules, start, chain[..c], chain[c..fork]);
    DeepReplayExact(rules, Replay(rules, start, chain[..c]).value, rows, store.accounts, chain[c..fork]);
  }

  // ----- committing the switch -----

  function RolledBack(s: State, undo: map<nat, seq<UndoRec>>, fork: nat, tip: nat): State
    requires fork <= tip && forall h :: fork < h <= tip ==> h in undo
    decreases tip
  {
    if tip == fork then s else RolledBack(Undone(s, undo[tip]), undo, fork, tip - 1)
  }

  function Applied(s: State, vs: seq<ValidatedBlock>): State {
    if vs == [] then s else Committed(Applied(s, vs[..|vs| - 1]), vs[|vs| - 1].deltas)
  }

  function UpTo<T>(m: map<nat, T>, h: nat): map<nat, T> { map k: nat | k in m && k <= h :: m[k] }

  function Above<T>(m: map<nat, T>, h: nat): map<nat, T> { map k: nat | k in m && k > h :: m[k] }

  /** The items at consecutive heights from `at`. */
  function Placed<T>(m: map<nat, T>, at: nat, xs: seq<T>): map<nat, T> {
    if xs == [] then m else Placed(m, at, xs[..|xs| - 1])[at + |xs| - 1 := xs[|xs| - 1]]
  }

  lemma {:induction false} PlacedAt<T>(m: map<nat, T>, at: nat, xs: seq<T>, h: nat)
    ensures h in Placed(m, at, xs) <==> h in m || at <= h < at + |xs|
    ensures at <= h < at + |xs| ==> Placed(m, at, xs)[h] == xs[h - at]
    ensures h in m && h < at ==> Placed(m, at, xs)[h] == m[h]
  {
    if xs != [] {
      PlacedAt(m, at, xs[..|xs| - 1], h);
    }
  }

  function Raws(bs: seq<Block>): (r: seq<Bytes>)
    ensures |r| == |bs|
  {
    seq(|bs|, i requires 0 <= i < |bs| => bs[i].raw)
  }

  function Headers(bs: seq<Block>): (r: seq<Header>)
    ensures |r| == |bs|
  {
    seq(|bs|, i requires 0 <= i < |bs| => bs[i].header)
  }

  function Undos(vs: seq<ValidatedBlock>): (r: seq<seq<UndoRec>>)
    ensures |r| == |vs|
  {
    seq(|vs|, i requires 0 <= i < |vs| => vs[i].undo)
  }

  /** The accounts the commits start from: rolled back by the undo lists, or the snapshot. */
  function BaseAccounts(store: Store, fork: nat, tip: nat, base: Base): State
    requires fork <= tip && BaseOf(store, fork, tip, base)
  {
    if base.DeepReplay? then DeepStart(store, fork).value.1 else RolledBack(store.accounts, store.undo, fork, tip)
  }

  /** The store after commits above some height; undo lists at or below the floor are pruned. */
  function CommitFrom(store: Store, accounts: State, at: nat, blocks: seq<Block>, vs: seq<ValidatedBlock>,
                      floor: nat): Store {
    store.(
      accounts := Applied(accounts, vs),
      bodies := Placed(UpTo(store.bodies, at), at + 1, Raws(blocks)),
      headers := Placed(UpTo(store.headers, at), at + 1, Headers(blocks)),
      undo := Above(Placed(UpTo(store.undo, at), at + 1, Undos(vs)), floor))
  }

  /** The store after a switch. */
  function CommitReorg(store: Store, chain: seq<Block>, fork: nat, tip: nat, branch: seq<Block>, base: Base,
                       vs: seq<ValidatedBlock>, floor: nat): Store
    requires fork <= tip == |chain| && BaseOf(store, fork, tip, base) && BaseHeight(base, fork) <= fork
  {
    var at := BaseHeight(base, fork);
    CommitFrom(store, BaseAccounts(store, fork, tip, base), at, chain[at..fork] + branch, vs, floor)
  }

  lemma NewBody(store: Store, accounts: State, fork: nat, branch: seq<Block>, vs: seq<ValidatedBlock>, floor: nat,
                h: nat)
    requires |vs| == |branch|
    ensures var store' := CommitFrom(store, accounts, fork, branch, vs, floor);
            && (h <= fork ==> (h in store'.bodies <==> h in store.bodies) && (h in store.bodies ==>
                                                                                store'.bodies[h] == store.bodies[h]))
            && (h <= fork && h in store.headers ==> h in store'.headers && store'.headers[h] == store.headers[h])
            && (fork < h <= fork + |branch| ==> Holds(store', h, branch[h - fork - 1]))
            && (h in store'.undo ==> h <= fork + |branch|)
            && (h in store'.undo && h <= fork ==> h in store.undo && store'.undo[h] == store.undo[h])
            && (h in store'.undo && h > fork ==> store'.undo[h] == vs[h - fork - 1].undo)
  {
    hide RolledBack, Applied, Placed;
    PlacedAt(UpTo(store.bodies, fork), fork + 1, Raws(branch), h);
    PlacedAt(UpTo(store.headers, fork), fork + 1, Headers(branch), h);
    PlacedAt(UpTo(store.undo, fork), fork + 1, Undos(vs), h);
  }

  lemma {:induction false} RollsBack(rules: Rules, store: Store, start: Chain, chain: seq<Block>, fork: nat, tip: nat,
                                     s: State)
    requires Faithful(rules, store, start, chain) && fork <= tip <= |chain| && HaveUndo(store, fork, tip)
    requires Same(s, StateAt(rules, start, chain, tip))
    ensures Same(RolledBack(s, store.undo, fork, tip), StateAt(rules, start, chain, fork))
    decreases tip
  {
    hide Replay, Same, Undone, Undoes;
    if fork < tip {
      UndoStep(rules, store, start, chain, tip, s);
      RollsBack(rules, store, start, chain, fork, tip - 1, Undone(s, store.undo[tip]));
    }
  }

  lemma {:induction false} Applies(rules: Rules, c: Chain, branch: seq<Block>, vs: seq<ValidatedBlock>, s: State,
                                   n: nat)
    requires n <= |vs| && Steps(rules, c, branch, vs, |vs|) && Same(s, c.accounts)
    ensures Replay(rules, c, branch[..n]).Ok? && Same(Applied(s, vs[..n]), Replay(rules, c, branch[..n]).value.accounts)
  {
    hide ApplyBlock, Same, Describes, Committed;
    if n > 0 {
      Applies(rules, c, branch, vs, s, n - 1);
      assert StepAt(rules, c, branch, vs[n - 1], n - 1);
      var before, after := Replay(rules, c, branch[..n - 1]).value.accounts,
          Replay(rules, c, branch[..n]).value.accounts;
      var v := vs[n - 1];
      var order :| Describes(order, v.undo, v.deltas, before, after);
      UndoRestores(order, v.undo, v.deltas, before, after, Applied(s, vs[..n - 1]));
      assert vs[..n][..n - 1] == vs[..n - 1] && vs[..n][n - 1] == v;
    }
  }

  /** The new chain up to any height is the old one up to the fork, then the branch. */
  lemma NewPrefix(chain: seq<Block>, fork: nat, branch: seq<Block>, h: nat)
    requires fork <= |chain| && h <= fork + |branch|
    ensures (chain[..fork] + branch)[..h] == if h <= fork then chain[..h] else chain[..fork] + branch[..h - fork]
  {
  }

  lemma NewReplay(rules: Rules, store: Store, start: Chain, chain: seq<Block>, fork: nat, branch: seq<Block>,
                  vs: seq<ValidatedBlock>,
                  h: nat)
    requires Faithful(rules, store, start, chain) && fork <= |chain| && h <= fork + |branch|
    requires Steps(rules, Replay(rules, start, chain[..fork]).value, branch, vs, |branch|)
    ensures var r := Replay(rules, start, (chain[..fork] + branch)[..h]);
            && r.Ok?
            && (h <= fork ==> r == Replay(rules, start, chain[..h]))
            && (h > fork ==> r == Replay(rules, Replay(rules, start, chain[..fork]).value, branch[..h - fork]))
  {
    hide Replay, Same, Step, Undoes;
    NewPrefix(chain, fork, branch, h);
    if h > fork {
      ReplayAppend(rules, start, chain[..fork], branch[..h - fork]);
      assert StepAt(rules, Replay(rules, start, chain[..fork]).value, branch, vs[h - fork - 1], h - fork - 1);
    }
  }

  lemma NewUndo(rules: Rules, store: Store, start: Chain, chain: seq<Block>, fork: nat, branch: seq<Block>,
                vs: seq<ValidatedBlock>, h: nat, u: seq<UndoRec>)
    requires Faithful(rules, store, start, chain) && fork <= |chain|
    requires Steps(rules, Replay(rules, start, chain[..fork]).value, branch, vs, |branch|)
    requires 1 <= h <= fork + |branch|
    requires if h <= fork then h in store.undo && u == store.undo[h] else u == vs[h - fork - 1].undo
    ensures var next := chain[..fork] + branch;
            && Replay(rules, start, next[..h]).Ok? && Replay(rules, start, next[..h - 1]).Ok?
            && Undoes(u, Replay(rules, start, next[..h - 1]).value.accounts,
                      Replay(rules, start, next[..h]).value.accounts)
  {
    hide Replay, Same, Describes;
    NewReplay(rules, store, start, chain, fork, branch, vs, h);
    NewReplay(rules, store, start, chain, fork, branch, vs, h - 1);
    if h <= fork {
      assert Undoes(store.undo[h], StateAt(rules, start, chain, h - 1), StateAt(rules, start, chain, h));
    } else {
      var at, i := Replay(rules, start, chain[..fork]).value, h - fork - 1;
      assert StepAt(rules, at, branch, vs[i], i);
      EmptyReplay(rules, at);
      assert branch[..0] == [];
      var before, after := Replay(rules, at, branch[..i]).value.accounts,
          Replay(rules, at, branch[..i + 1]).value.accounts;
      var order :| Describes(order, vs[i].undo, vs[i].deltas, before, after);
      assert Undoes(u, before, after);
    }
  }

  lemma EmptyReplay(rules: Rules, c: Chain)
    ensures Replay(rules, c, []) == Ok(c)
  {
  }

  /** Commits above a height, from the accounts at that height, leave the store of the new
      chain. */
  lemma CommitFaithful(rules: Rules, store: Store, start: Chain, chain: seq<Block>, at: nat, accounts: State,
                       blocks: seq<Block>,
                       vs: seq<ValidatedBlock>, floor: nat)
    requires Faithful(rules, store, start, chain) && at <= |chain| && Heights(blocks, at + 1)
    requires Same(accounts, StateAt(rules, start, chain, at))
    requires Steps(rules, Replay(rules, start, chain[..at]).value, blocks, vs, |blocks|)
    ensures Faithful(rules, CommitFrom(store, accounts, at, blocks, vs, floor), start, chain[..at] + blocks)
  {
    hide Replay, Same, Describes, CommitFrom, Undoes, BlockEntries, StepAt, Holds;
    var store', next := CommitFrom(store, accounts, at, blocks, vs, floor), chain[..at] + blocks;
    forall h | 0 <= h <= |next| ensures Replay(rules, start, next[..h]).Ok? {
      NewReplay(rules, store, start, chain, at, blocks, vs, h);
    }
    NewAccounts(rules, store, start, chain, at, accounts, blocks, vs, floor);
    forall i | 0 <= i < |next| ensures Holds(store', i + 1, next[i]) {
      NewBody(store, accounts, at, blocks, vs, floor, i + 1);
      if i < at {
        StillHolds(store, store', i + 1, chain[i]);
      }
    }
    forall h | h in store'.undo && 1 <= h <= |next|
      ensures Undoes(store'.undo[h], StateAt(rules, start, next, h - 1), StateAt(rules, start, next, h))
    {
      NewBody(store, accounts, at, blocks, vs, floor, h);
      NewUndo(rules, store, start, chain, at, blocks, vs, h, store'.undo[h]);
    }
    NewBody(store, accounts, at, blocks, vs, floor, 0);
    assert next[..|next|] == next && Heights(next, 1);
  }

  /** A switch that was accepted and committed, by undo lists or through the deep path, leaves
      the store of the new chain: whatever is undone, replayed or read later is again what that
      chain says. */
  lemma StaysFaithful(rules: Rules, store: Store, start: Chain, chain: seq<Block>, fork: nat, tip: nat,
                      branch: seq<Block>, base: Base,
                      vs: seq<ValidatedBlock>, floor: nat)
    requires Faithful(rules, store, start, chain) && fork <= tip == |chain| && Heights(branch, fork + 1)
    requires BaseOf(store, fork, tip, base) && BaseHeight(base, fork) <= fork
    requires base.DeepReplay? ==> SnapshotOf(rules, store, start, chain, fork)
    requires var at := BaseHeight(base, fork);
             Steps(rules, Replay(rules, start, chain[..at]).value, chain[at..fork] + branch, vs, fork - at + |branch|)
    ensures Faithful(rules, CommitReorg(store, chain, fork, tip, branch, base, vs, floor), start,
                     chain[..fork] + branch)
  {
    hide Replay, Same, Undoes, Steps, CommitFrom, RolledBack, BlockEntries, Holds;
    var at := BaseHeight(base, fork);
    var blocks := chain[at..fork] + branch;
    assert chain[..at] + blocks == chain[..fork] + branch;
    assert Heights(blocks, at + 1);
    if !base.DeepReplay? {
      RollsBack(rules, store, start, chain, fork, tip, store.accounts);
    }
    CommitFaithful(rules, store, start, chain, at, BaseAccounts(store, fork, tip, base), blocks, vs, floor);
  }

  /** The store of a node that has only the first block is faithful. */
  lemma GenesisFaithful(rules: Rules, store: Store, start: Chain)
    requires start.led == GenesisEntries(rules, store) && Same(store.accounts, start.accounts)
    requires 0 in store.bodies ==> BlockEntries(rules, 0, store.bodies[0]).1
    ensures Faithful(rules, store, start, [])
  {
    hide BlockEntries, Same;
    EmptyReplay(rules, start);
    var none: seq<Block> := [];
    assert none[..0] == [];
  }

  lemma StillHolds(store: Store, store': Store, h: nat, b: Block)
    requires Holds(store, h, b)
    requires h in store.bodies ==> h in store'.bodies && store'.bodies[h] == store.bodies[h]
    requires h in store.headers ==> h in store'.headers && store'.headers[h] == store.headers[h]
    ensures Holds(store', h, b)
  {
  }

  lemma NewAccounts(rules: Rules, store: Store, start: Chain, chain: seq<Block>, at: nat, accounts: State,
                    blocks: seq<Block>,
                    vs: seq<ValidatedBlock>, floor: nat)
    requires Faithful(rules, store, start, chain) && at <= |chain|
    requires Same(accounts, StateAt(rules, start, chain, at))
    requires Steps(rules, Replay(rules, start, chain[..at]).value, blocks, vs, |blocks|)
    ensures var next := chain[..at] + blocks;
            && Replay(rules, start, next).Ok?
            && Same(CommitFrom(store, accounts, at, blocks, vs, floor).accounts,
                    Replay(rules, start, next).value.accounts)
  {
    hide Replay, Same, RolledBack, Applied, Undoes, Placed;
    var c := Replay(rules, start, chain[..at]).value;
    Applies(rules, c, blocks, vs, accounts, |blocks|);
    assert blocks[..|blocks|] == blocks && vs[..|blocks|] == vs;
    ReplayAppend(rules, start, chain[..at], blocks);
  }
}
