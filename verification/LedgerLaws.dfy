/** What every run of accepted blocks keeps: money, nonces, and immature coinbases. */
module LedgerLaws {
  import opened Wrappers
  import opened Ledger

  // ----- the sum of all balances -----

  ghost function SumOver(s: State, keys: set<Address>): nat {
    if keys == {} then 0
    else
      var a :| a in keys;
      Get(s, a).balance + SumOver(s, keys - {a})
  }

  ghost function Total(s: State): nat { SumOver(s, s.Keys) }

  lemma {:induction false} SumPick(s: State, keys: set<Address>, a: Address)
    requires a in keys
    ensures SumOver(s, keys) == Get(s, a).balance + SumOver(s, keys - {a})
    decreases keys
  {
    var b :| b in keys && SumOver(s, keys) == Get(s, b).balance + SumOver(s, keys - {b});
    if b != a {
      SumPick(s, keys - {b}, a);
      SumPick(s, keys - {a}, b);
      assert keys - {b} - {a} == keys - {a} - {b};
    }
  }

  lemma {:induction false} SumElsewhere(s: State, t: State, keys: set<Address>)
    requires forall a :: a in keys ==> Get(s, a).balance == Get(t, a).balance
    ensures SumOver(s, keys) == SumOver(t, keys)
    decreases keys
  {
    if keys != {} {
      var a :| a in keys;
      SumPick(s, keys, a);
      SumPick(t, keys, a);
      SumElsewhere(s, t, keys - {a});
    }
  }

  /** Absent accounts add nothing. */
  lemma {:induction false} SumSuperset(s: State, keys: set<Address>)
    requires s.Keys <= keys
    ensures SumOver(s, keys) == Total(s)
    decreases keys
  {
    if a :| a in keys && a !in s.Keys {
      SumPick(s, keys, a);
      SumSuperset(s, keys - {a});
    } else {
      assert keys == s.Keys;
    }
  }

  lemma TotalUpdate(s: State, a: Address, acct: Account)
    ensures Total(s[a := acct]) == Total(s) - Get(s, a).balance + acct.balance
  {
    var t, keys := s[a := acct], s.Keys + {a};
    SumSuperset(s, keys);
    assert t.Keys == keys;
    SumPick(s, keys, a);
    SumPick(t, keys, a);
    SumElsewhere(s, t, keys - {a});
  }

  lemma TxConserves(rules: Rules, s: State, led: seq<Entry>, height: nat, tx: Tx, i: nat)
    requires !tx.Coinbase? && ApplyTx(rules, s, led, height, tx, i).Ok?
    ensures Total(ApplyTx(rules, s, led, height, tx, i).value) == Total(s) - tx.fee
  {
    hide Total, Spendable;
    var from := rules.From(tx);
    var acct := Get(s, from);
    if tx.Transfer? {
      var s1 := s[from := Account(acct.balance - (tx.amount + tx.fee), acct.nonce + 1)];
      TotalUpdate(s, from, s1[from]);
      TotalUpdate(s1, tx.to, Account(Get(s1, tx.to).balance + tx.amount, Get(s1, tx.to).nonce));
    } else {
      TotalUpdate(s, from, Account(acct.balance - tx.fee, acct.nonce + 1));
    }
  }

  lemma {:induction false} BodyConserves(rules: Rules, s: State, led: seq<Entry>, height: nat, body: Checked, n: nat)
    requires body.Valid() && 1 <= n <= |body.txs| && ApplyFirst(rules, s, led, height, body, n).Ok?
    ensures Total(ApplyFirst(rules, s, led, height, body, n).value) == Total(s) + body.Credit() - Fees(body.txs[..n])
  {
    hide Total, ApplyTx;
    if n == 1 {
      var a := body.Cb().to;
      TotalUpdate(s, a, Account(Get(s, a).balance + body.Credit(), Get(s, a).nonce));
      assert body.txs[..1][..0] == [];
    } else {
      BodyConserves(rules, s, led, height, body, n - 1);
      TxConserves(rules, ApplyFirst(rules, s, led, height, body, n - 1).value, led, height, body.txs[n - 1], n - 1);
      assert body.txs[..n][..n - 1] == body.txs[..n - 1];
    }
  }

  /** An accepted block adds exactly its reward, whoever pays whom. */
  lemma BlockConserves(rules: Rules, c: Chain, b: Block, trust: Trust)
    requires ApplyBlock(rules, c, b, trust).Ok?
    ensures Total(ApplyBlock(rules, c, b, trust).value.accounts) == Total(c.accounts) + BlockReward(b.header.height)
  {
    hide Total, ApplyFirst, CheckBody;
    CheckedIsValid(rules, b.header, b.raw, trust);
    var body := CheckBody(rules, b.header, b.raw, trust).value;
    var led := WithCoinbase(c.led, b.header.height, body);
    BodyConserves(rules, c.accounts, led, b.header.height, body, |body.txs|);
    assert body.txs[..|body.txs|] == body.txs;
  }

  /** Headers count up from the one after the start. */
  predicate Heights(blocks: seq<Block>, first: nat) {
    forall i :: 0 <= i < |blocks| ==> blocks[i].header.height == first + i
  }

  function Rewards(blocks: seq<Block>): nat {
    if blocks == [] then 0 else Rewards(blocks[..|blocks| - 1]) + BlockReward(blocks[|blocks| - 1].header.height)
  }

  /** Over every chain of accepted blocks the sum of all balances grows by exactly the
      rewards of those blocks. */
  lemma {:induction false} Conservation(rules: Rules, start: Chain, blocks: seq<Block>)
    requires Replay(rules, start, blocks).Ok?
    ensures Total(Replay(rules, start, blocks).value.accounts) == Total(start.accounts) + Rewards(blocks)
  {
    hide Total, ApplyBlock;
    if blocks != [] {
      var front := blocks[..|blocks| - 1];
      Conservation(rules, start, front);
      BlockConserves(rules, Replay(rules, start, front).value, blocks[|blocks| - 1], Untrusted);
    }
  }

  lemma {:induction false} FlatSubsidy(blocks: seq<Block>, first: nat)
    requires Heights(blocks, first) && first >= 1
    ensures Rewards(blocks) == SUBSIDY * |blocks|
  {
    if blocks != [] {
      FlatSubsidy(blocks[..|blocks| - 1], first);
    }
  }

  // ----- what a block does to one address does not depend on the state -----

  function TxNet(rules: Rules, tx: Tx, a: Address): int
    requires !tx.Coinbase?
  {
    (if tx.Transfer? && tx.to == a then tx.amount else 0)
    - (if rules.From(tx) == a then tx.fee + (if tx.Transfer? then tx.amount else 0) else 0)
  }

  function Net(rules: Rules, body: Checked, n: nat, a: Address): int
    requires body.Valid() && 1 <= n <= |body.txs|
  {
    if n == 1 then if body.Cb().to == a then body.Credit() else 0
    else Net(rules, body, n - 1, a) + TxNet(rules, body.txs[n - 1], a)
  }

  /** The (sender, nonce) pairs of transactions 1 .. n - 1, in order. */
  function Spent(rules: Rules, body: Checked, n: nat): seq<(Address, nat)>
    requires body.Valid() && 1 <= n <= |body.txs|
  {
    if n == 1 then [] else Spent(rules, body, n - 1) + [(rules.From(body.txs[n - 1]), body.txs[n - 1].nonce)]
  }

  function Uses(spent: seq<(Address, nat)>, a: Address): nat {
    if spent == [] then 0 else Uses(spent[..|spent| - 1], a) + if spent[|spent| - 1].0 == a then 1 else 0
  }

  lemma TxEffect(rules: Rules, s: State, led: seq<Entry>, height: nat, tx: Tx, i: nat, a: Address)
    requires !tx.Coinbase? && ApplyTx(rules, s, led, height, tx, i).Ok?
    ensures var s' := ApplyTx(rules, s, led, height, tx, i).value;
            && Get(s', a).balance == Get(s, a).balance + TxNet(rules, tx, a)
            && Get(s', a).nonce == Get(s, a).nonce + (if rules.From(tx) == a then 1 else 0)
            && tx.nonce == Get(s, rules.From(tx)).nonce
  {
    hide Spendable;
  }

  lemma {:induction false} BodyEffect(rules: Rules, s: State, led: seq<Entry>, height: nat, body: Checked, n: nat,
                                      a: Address)
    requires body.Valid() && 1 <= n <= |body.txs| && ApplyFirst(rules, s, led, height, body, n).Ok?
    ensures var s' := ApplyFirst(rules, s, led, height, body, n).value;
            && Get(s', a).balance == Get(s, a).balance + Net(rules, body, n, a)
            && Get(s', a).nonce == Get(s, a).nonce + Uses(Spent(rules, body, n), a)
  {
    hide ApplyTx, TxNet;
    if n > 1 {
      BodyEffect(rules, s, led, height, body, n - 1, a);
      TxEffect(rules, ApplyFirst(rules, s, led, height, body, n - 1).value, led, height, body.txs[n - 1], n - 1, a);
      var spent := Spent(rules, body, n);
      assert spent[..|spent| - 1] == Spent(rules, body, n - 1);
    }
  }

  // ----- nonces -----

  /** Every spend uses the nonce its sender has after the earlier ones. */
  ghost predicate Consecutive(s: State, spent: seq<(Address, nat)>) {
    forall i :: 0 <= i < |spent| ==> spent[i].1 == Get(s, spent[i].0).nonce + Uses(spent[..i], spent[i].0)
  }

  lemma {:induction false} BodyConsecutive(rules: Rules, s: State, led: seq<Entry>, height: nat, body: Checked, n: nat)
    requires body.Valid() && 1 <= n <= |body.txs| && ApplyFirst(rules, s, led, height, body, n).Ok?
    ensures Consecutive(s, Spent(rules, body, n))
  {
    hide ApplyTx, Uses;
    if n > 1 {
      BodyConsecutive(rules, s, led, height, body, n - 1);
      var tx, before, all := body.txs[n - 1], Spent(rules, body, n - 1), Spent(rules, body, n);
      var from := rules.From(tx);
      BodyEffect(rules, s, led, height, body, n - 1, from);
      TxEffect(rules, ApplyFirst(rules, s, led, height, body, n - 1).value, led, height, tx, n - 1, from);
      forall i | 0 <= i < |all| ensures all[i].1 == Get(s, all[i].0).nonce + Uses(all[..i], all[i].0) {
        if i < |before| {
          assert all[..i] == before[..i];
        } else {
          assert all[..i] == before;
        }
      }
    }
  }

  lemma {:induction false} UsesAppend(x: seq<(Address, nat)>, y: seq<(Address, nat)>, a: Address)
    ensures Uses(x + y, a) == Uses(x, a) + Uses(y, a)
  {
    if y == [] {
      assert x + y == x;
    } else {
      UsesAppend(x, y[..|y| - 1], a);
      assert (x + y)[..|x + y| - 1] == x + y[..|y| - 1];
    }
  }

  lemma ConsecutiveAppend(s: State, s1: State, x: seq<(Address, nat)>, y: seq<(Address, nat)>)
    requires Consecutive(s, x) && Consecutive(s1, y)
    requires forall a: Address :: Get(s1, a).nonce == Get(s, a).nonce + Uses(x, a)
    ensures Consecutive(s, x + y)
  {
    hide Uses;
    var z := x + y;
    forall i | 0 <= i < |z| ensures z[i].1 == Get(s, z[i].0).nonce + Uses(z[..i], z[i].0) {
      if i < |x| {
        assert z[..i] == x[..i];
      } else {
        assert z[..i] == x + y[..i - |x|];
        UsesAppend(x, y[..i - |x|], z[i].0);
      }
    }
  }

  function BlockSpent(rules: Rules, b: Block): seq<(Address, nat)> {
    var checked := CheckBody(rules, b.header, b.raw, Untrusted);
    if checked.Err? then []
    else
      CheckedIsValid(rules, b.header, b.raw, Untrusted);
      Spent(rules, checked.value, |checked.value.txs|)
  }

  function RunSpent(rules: Rules, blocks: seq<Block>): seq<(Address, nat)> {
    if blocks == [] then [] else RunSpent(rules, blocks[..|blocks| - 1]) + BlockSpent(rules, blocks[|blocks| - 1])
  }

  lemma BlockNonces(rules: Rules, c: Chain, b: Block)
    requires ApplyBlock(rules, c, b, Untrusted).Ok?
    ensures Consecutive(c.accounts, BlockSpent(rules, b))
    ensures var c' := ApplyBlock(rules, c, b, Untrusted).value;
            forall a: Address :: Get(c'.accounts, a).nonce == Get(c.accounts, a).nonce + Uses(BlockSpent(rules, b), a)
  {
    hide CheckBody, ApplyFirst, Consecutive, Uses;
    CheckedIsValid(rules, b.header, b.raw, Untrusted);
    var body := CheckBody(rules, b.header, b.raw, Untrusted).value;
    var led := WithCoinbase(c.led, b.header.height, body);
    BodyConsecutive(rules, c.accounts, led, b.header.height, body, |body.txs|);
    var c' := ApplyBlock(rules, c, b, Untrusted).value;
    forall a: Address ensures Get(c'.accounts, a).nonce == Get(c.accounts, a).nonce + Uses(BlockSpent(rules, b), a) {
      BodyEffect(rules, c.accounts, led, b.header.height, body, |body.txs|, a);
    }
  }

  /** Over every accepted run each sender's nonces are consecutive, from the one it started
      with, and its account ends at the next one. */
  lemma {:induction false} NoncesConsecutive(rules: Rules, start: Chain, blocks: seq<Block>)
    requires Replay(rules, start, blocks).Ok?
    ensures Consecutive(start.accounts, RunSpent(rules, blocks))
    ensures var end := Replay(rules, start, blocks).value;
            forall a: Address ::
              Get(end.accounts, a).nonce == Get(start.accounts, a).nonce + Uses(RunSpent(rules, blocks), a)
  {
    hide ApplyBlock, BlockSpent;
    if blocks != [] {
      var front, b := blocks[..|blocks| - 1], blocks[|blocks| - 1];
      var x, y, c := RunSpent(rules, front), BlockSpent(rules, b), Replay(rules, start, front).value;
      NoncesConsecutive(rules, start, front);
      BlockNonces(rules, c, b);
      ConsecutiveAppend(start.accounts, c.accounts, x, y);
      forall a: Address ensures Uses(x + y, a) == Uses(x, a) + Uses(y, a) {
        UsesAppend(x, y, a);
      }
    }
  }

  lemma {:induction false} UsesGrow(spent: seq<(Address, nat)>, i: nat, j: nat)
    requires i < j <= |spent|
    ensures Uses(spent[..i], spent[i].0) < Uses(spent[..j], spent[i].0)
    decreases j
  {
    assert spent[..j][..j - 1] == spent[..j - 1];
    if i < j - 1 {
      UsesGrow(spent, i, j - 1);
    }
  }

  /** So no (address, nonce) pair is spent twice. */
  lemma NoReplay(rules: Rules, start: Chain, blocks: seq<Block>, i: nat, j: nat)
    requires Replay(rules, start, blocks).Ok? && i < j < |RunSpent(rules, blocks)|
    ensures RunSpent(rules, blocks)[i] != RunSpent(rules, blocks)[j]
  {
    hide Replay, RunSpent, Uses;
    NoncesConsecutive(rules, start, blocks);
    UsesGrow(RunSpent(rules, blocks), i, j);
  }

  // ----- maturity -----

  /** Every balance is at least what its address may not spend yet. */
  ghost predicate Covered(s: State, led: seq<Entry>, height: nat) {
    forall a: Address :: Get(s, a).balance >= Immature(led, a, height)
  }

  lemma {:induction false} ImmatureAgain(led: seq<Entry>, a: Address, h: nat, h': nat)
    requires h <= h'
    requires forall i :: 0 <= i < |led| ==> led[i].height <= h
    ensures Immature(led, a, h') <= Immature(led, a, h)
  {
    if led != [] {
      ImmatureAgain(led[..|led| - 1], a, h, h');
    }
  }

  lemma TxCovered(rules: Rules, s: State, led: seq<Entry>, height: nat, tx: Tx, i: nat)
    requires !tx.Coinbase? && Covered(s, led, height) && ApplyTx(rules, s, led, height, tx, i).Ok?
    ensures Covered(ApplyTx(rules, s, led, height, tx, i).value, led, height)
  {
    hide Immature;
    var s', from := ApplyTx(rules, s, led, height, tx, i).value, rules.From(tx);
    forall a: Address ensures Get(s', a).balance >= Immature(led, a, height) {
      assert Get(s, a).balance >= Immature(led, a, height);
    }
  }

  lemma CoinbaseCovered(s: State, led: seq<Entry>, height: nat, body: Checked)
    requires body.Valid() && Covered(s, led, height) && Credited(s, body.Cb().to, body.Credit()).Ok?
    ensures Covered(Credited(s, body.Cb().to, body.Credit()).value, WithCoinbase(led, height, body), height)
  {
    var s', led' := Credited(s, body.Cb().to, body.Credit()).value, WithCoinbase(led, height, body);
    assert led'[..|led|] == led;
    forall a: Address ensures Get(s', a).balance >= Immature(led', a, height) {
      assert Get(s, a).balance >= Immature(led, a, height);
    }
  }

  lemma {:induction false} BodyCovered(rules: Rules, s: State, led: seq<Entry>, height: nat, body: Checked, n: nat)
    requires body.Valid() && 1 <= n <= |body.txs| && Covered(s, led, height)
    requires ApplyFirst(rules, s, WithCoinbase(led, height, body), height, body, n).Ok?
    ensures Covered(ApplyFirst(rules, s, WithCoinbase(led, height, body), height, body, n).value,
                    WithCoinbase(led, height, body), height)
  {
    hide Covered, ApplyTx, Credited, WithCoinbase;
    if n == 1 {
      CoinbaseCovered(s, led, height, body);
    } else {
      BodyCovered(rules, s, led, height, body, n - 1);
      var led' := WithCoinbase(led, height, body);
      TxCovered(rules, ApplyFirst(rules, s, led', height, body, n - 1).value, led', height, body.txs[n - 1], n - 1);
    }
  }

  predicate Entered(led: seq<Entry>, below: nat) { forall i :: 0 <= i < |led| ==> led[i].height < below }

  lemma BlockCovered(rules: Rules, c: Chain, b: Block)
    requires ApplyBlock(rules, c, b, Untrusted).Ok?
    requires Entered(c.led, b.header.height) && Covered(c.accounts, c.led, b.header.height)
    ensures var c' := ApplyBlock(rules, c, b, Untrusted).value;
            Entered(c'.led, b.header.height + 1) && Covered(c'.accounts, c'.led, b.header.height + 1)
  {
    hide CheckBody, ApplyFirst, Immature;
    CheckedIsValid(rules, b.header, b.raw, Untrusted);
    var body, h: nat := CheckBody(rules, b.header, b.raw, Untrusted).value, b.header.height;
    BodyCovered(rules, c.accounts, c.led, h, body, |body.txs|);
    var c' := ApplyBlock(rules, c, b, Untrusted).value;
    forall a: Address ensures Get(c'.accounts, a).balance >= Immature(c'.led, a, h + 1) {
      ImmatureAgain(c'.led, a, h, h + 1);
    }
  }

  /** In every accepted run every balance stays at least its immature coinbases: no
      unripe reward is ever spent, not even the block's own. */
  lemma {:induction false} MaturityKept(rules: Rules, start: Chain, blocks: seq<Block>, first: nat)
    requires Replay(rules, start, blocks).Ok? && Heights(blocks, first)
    requires Entered(start.led, first) && Covered(start.accounts, start.led, first)
    ensures var end := Replay(rules, start, blocks).value;
            Entered(end.led, first + |blocks|) && Covered(end.accounts, end.led, first + |blocks|)
  {
    hide ApplyBlock, Covered, Entered;
    if blocks != [] {
      var front := blocks[..|blocks| - 1];
      MaturityKept(rules, start, front, first);
      BlockCovered(rules, Replay(rules, start, front).value, blocks[|blocks| - 1]);
    }
  }

  /** Under that invariant neither saturation happens: what may be spent is exactly the
      balance less the immature credits. */
  lemma NeverSaturates(s: State, led: seq<Entry>, height: nat, a: Address)
    requires Covered(s, led, height)
    ensures Immature(led, a, height) <= MAX_U128
    ensures Spendable(led, a, Get(s, a).balance, height) == Get(s, a).balance - Immature(led, a, height)
  {
    hide Immature;
    assert Get(s, a).balance >= Immature(led, a, height);
  }
}
