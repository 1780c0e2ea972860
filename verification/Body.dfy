/** The validator as it runs: an overlay of touched accounts with a first-touch undo frame,
    a list of coinbase entries, and the body checks in order. */
module Body {
  import opened Wrappers
  import opened Ledger
  import opened LedgerLaws

  datatype UndoRec = UndoRec(addr: Address, prevBalance: U128, prevNonce: U64, existed: bool)

  datatype StateDelta = StateDelta(addr: Address, balance: U128, nonce: U64)

  datatype ValidatedBlock = ValidatedBlock(
    deltas: seq<StateDelta>,
    undo: seq<UndoRec>,
    issued: U128,
    coinbaseTo: Address,
    coinbaseCredit: U128,
    txids: seq<Hash>,
    spent: seq<(Address, nat)>,
    records: seq<Bytes>)

  lemma SameUpdate(s: State, t: State, a: Address, acct: Account)
    requires Same(s, t)
    ensures Same(s[a := acct], t[a := acct])
  {
    var s1, t1 := s[a := acct], t[a := acct];
    forall b: Address ensures Get(s1, b) == Get(t1, b) {
      assert Get(s, b) == Get(t, b);
    }
  }

  lemma SameTrans(s: State, t: State, u: State)
    requires Same(s, t) && Same(t, u)
    ensures Same(s, u)
  {
    forall a: Address ensures Get(s, a) == Get(u, a) {
      assert Get(s, a) == Get(t, a);
    }
  }

  lemma SameAt(s: State, t: State, a: Address)
    requires Same(s, t)
    ensures Get(s, a) == Get(t, a)
  {
  }

  // ----- what undo records and deltas are for -----

  function Undone(s: State, recs: seq<UndoRec>): State
    decreases |recs|
  {
    if recs == [] then s
    else Undone(s[recs[0].addr := Account(recs[0].prevBalance, recs[0].prevNonce)], recs[1..])
  }

  function Committed(s: State, deltas: seq<StateDelta>): State
    decreases |deltas|
  {
    if deltas == [] then s
    else Committed(s[deltas[0].addr := Account(deltas[0].balance, deltas[0].nonce)], deltas[1..])
  }

  predicate Distinct(addrs: seq<Address>) { forall i, j :: 0 <= i < j < |addrs| ==> addrs[i] != addrs[j] }

  /** One record per touched account, in the same order in both lists: the records hold the
      accounts before, the deltas the accounts after, and nothing else changed. */
  ghost predicate Describes(order: seq<Address>, undo: seq<UndoRec>, deltas: seq<StateDelta>, before: State,
                            after: State) {
    && |undo| == |deltas| == |order| && Distinct(order)
    && (forall i :: 0 <= i < |order| ==>
          && undo[i] == Record(before, order[i])
          && deltas[i] == Delta(after, order[i]))
    && (forall a: Address :: a !in order ==> Get(after, a) == Get(before, a))
  }

  function Record(s: State, a: Address): UndoRec {
    UndoRec(a, Get(s, a).balance, Get(s, a).nonce, !Get(s, a).IsAbsent())
  }

  function Delta(s: State, a: Address): StateDelta { StateDelta(a, Get(s, a).balance, Get(s, a).nonce) }

  lemma {:induction false} UndoneAt(s: State, recs: seq<UndoRec>, a: Address)
    ensures (forall i :: 0 <= i < |recs| ==> recs[i].addr != a) ==> Get(Undone(s, recs), a) == Get(s, a)
    ensures forall i :: 0 <= i < |recs| && recs[i].addr == a
              && (forall j :: i < j < |recs| ==> recs[j].addr != a)
              ==> Get(Undone(s, recs), a) == Account(recs[i].prevBalance, recs[i].prevNonce)
    decreases |recs|
  {
    if recs != [] {
      var s1, rest := s[recs[0].addr := Account(recs[0].prevBalance, recs[0].prevNonce)], recs[1..];
      UndoneAt(s1, rest, a);
      forall i | 0 <= i < |recs| && recs[i].addr == a && (forall j :: i < j < |recs| ==> recs[j].addr != a)
        ensures Get(Undone(s, recs), a) == Account(recs[i].prevBalance, recs[i].prevNonce)
      {
        if i > 0 {
          assert rest[i - 1] == recs[i];
        } else {
          assert forall j :: 0 <= j < |rest| ==> rest[j] == recs[j + 1];
        }
      }
    }
  }

  lemma {:induction false} CommittedAt(s: State, ds: seq<StateDelta>, a: Address)
    ensures (forall i :: 0 <= i < |ds| ==> ds[i].addr != a) ==> Get(Committed(s, ds), a) == Get(s, a)
    ensures forall i :: 0 <= i < |ds| && ds[i].addr == a
              && (forall j :: i < j < |ds| ==> ds[j].addr != a)
              ==> Get(Committed(s, ds), a) == Account(ds[i].balance, ds[i].nonce)
    decreases |ds|
  {
    if ds != [] {
      var s1, rest := s[ds[0].addr := Account(ds[0].balance, ds[0].nonce)], ds[1..];
      CommittedAt(s1, rest, a);
      forall i | 0 <= i < |ds| && ds[i].addr == a && (forall j :: i < j < |ds| ==> ds[j].addr != a)
        ensures Get(Committed(s, ds), a) == Account(ds[i].balance, ds[i].nonce)
      {
        if i > 0 {
          assert rest[i - 1] == ds[i];
        } else {
          assert forall j :: 0 <= j < |rest| ==> rest[j] == ds[j + 1];
        }
      }
    }
  }

  /** Applying the undo records to the state after gives the state before, and committing
      the deltas to the state before gives the state after. */
  lemma UndoRestores(order: seq<Address>, undo: seq<UndoRec>, deltas: seq<StateDelta>, before: State, after: State,
                     s: State)
    requires Describes(order, undo, deltas, before, after)
    ensures Same(s, after) ==> Same(Undone(s, undo), before)
    ensures Same(s, before) ==> Same(Committed(s, deltas), after)
  {
    forall a: Address
      ensures Same(s, after) ==> Get(Undone(s, undo), a) == Get(before, a)
      ensures Same(s, before) ==> Get(Committed(s, deltas), a) == Get(after, a)
    {
      UndoneAt(s, undo, a);
      CommittedAt(s, deltas, a);
      if i :| 0 <= i < |order| && order[i] == a {
        assert undo[i].addr == a && deltas[i].addr == a;
        assert forall j :: i < j < |order| ==> undo[j].addr == order[j] != a;
        assert forall j :: i < j < |order| ==> deltas[j].addr == order[j] != a;
      }
    }
  }

  // ----- the overlay -----

  class Overlay {
    /** What the store answers; an address it does not hold is absent. */
    const store: State
    var accounts: State
    var undo: map<Address, UndoRec>
    var order: seq<Address>
    /** The state when the current block began. */
    ghost var begun: State

    ghost function View(): State
      reads this
    {
      store + accounts
    }

    /** The undo frame holds the first-touch value of exactly the accounts in `order`. */
    ghost predicate Valid()
      reads this
    {
      && Distinct(order) && (forall a :: a in undo <==> a in order)
      && (forall a :: a in undo ==> undo[a] == Record(begun, a))
      && (forall a: Address :: a !in undo ==> Ledger.Get(View(), a) == Ledger.Get(begun, a))
    }

    constructor (store: State)
      ensures Valid() && View() == store && begun == store && fresh(this)
      ensures this.store == store && accounts == map[]
    {
      this.store := store;
      accounts := map[];
      undo := map[];
      order := [];
      begun := store;
      new;
      assert store + map[] == store;
    }

    /** Reads through; the fetched account is kept, the view is the same. */
    method Get(a: Address) returns (acct: Account)
      requires Valid()
      modifies this`accounts
      ensures acct == Ledger.Get(View(), a) && Same(View(), old(View())) && Valid()
    {
      if a in accounts {
        return accounts[a];
      }
      acct := Ledger.Get(store, a);
      accounts := accounts[a := acct];
    }

    method BeginBlock()
      modifies this`undo, this`order, this`begun
      ensures Valid() && begun == View() && order == []
    {
      undo := map[];
      order := [];
      begun := View();
    }

    method Capture(a: Address)
      requires Valid()
      modifies this`accounts, this`undo, this`order
      ensures Valid() && a in undo && Same(View(), old(View()))
    {
      if a in undo {
        return;
      }
      var prev := Get(a);
      undo := undo[a := UndoRec(a, prev.balance, prev.nonce, !prev.IsAbsent())];
      order := order + [a];
    }

    method Set(a: Address, acct: Account)
      requires Valid()
      modifies this`accounts, this`undo, this`order
      ensures Valid() && Same(View(), old(View())[a := acct])
    {
      Capture(a);
      ghost var was := View();
      accounts := accounts[a := acct];
      assert View() == was[a := acct];
      SameUpdate(was, old(View()), a, acct);
    }

    method Credit(a: Address, amount: U128) returns (r: Option<Reject>)
      requires Valid()
      modifies this`accounts, this`undo, this`order
      ensures Valid()
      ensures var spec := Credited(old(View()), a, amount);
              if spec.Ok? then r.None? && Same(View(), spec.value)
              else r == Some(spec.error) && Same(View(), old(View()))
    {
      hide Same, Valid;
      var acct := Get(a);
      SameAt(View(), old(View()), a);
      if acct.balance + amount > MAX_U128 {
        return Some(ArithmeticOverflow);
      }
      ghost var was := View();
      var next := Account(acct.balance + amount, acct.nonce);
      Set(a, next);
      SameUpdate(was, old(View()), a, next);
      SameTrans(View(), was[a := next], old(View())[a := next]);
      r := None;
    }

    method UndoRecords() returns (recs: seq<UndoRec>)
      requires Valid()
      ensures |recs| == |order| && forall i :: 0 <= i < |order| ==> recs[i] == Record(begun, order[i])
    {
      recs := [];
      for i := 0 to |order|
        invariant |recs| == i && forall j :: 0 <= j < i ==> recs[j] == Record(begun, order[j])
      {
        assert order[i] in undo;
        recs := recs + [undo[order[i]]];
      }
    }

    method Deltas() returns (ds: seq<StateDelta>)
      requires Valid()
      modifies this`accounts
      ensures Valid() && Same(View(), old(View()))
      ensures |ds| == |order| && forall i :: 0 <= i < |order| ==> ds[i] == Delta(View(), order[i])
    {
      ds := [];
      for i := 0 to |order|
        invariant Valid() && Same(View(), old(View())) && |ds| == i
        invariant forall j :: 0 <= j < i ==> ds[j] == Delta(old(View()), order[j])
      {
        var acct := Get(order[i]);
        ds := ds + [StateDelta(order[i], acct.balance, acct.nonce)];
      }
    }

    /** Rolls one block back. */
    method ApplyUndo(recs: seq<UndoRec>)
      modifies this`accounts
      ensures View() == Undone(old(View()), recs)
    {
      for i := 0 to |recs|
        invariant Undone(View(), recs[i..]) == Undone(old(View()), recs)
      {
        ghost var was := View();
        accounts := accounts[recs[i].addr := Account(recs[i].prevBalance, recs[i].prevNonce)];
        assert View() == was[recs[i].addr := Account(recs[i].prevBalance, recs[i].prevNonce)];
        assert recs[i..][1..] == recs[i + 1..];
      }
    }

    /** Replaces the touched accounts by the rows of a snapshot. */
    method Seed(rows: State)
      modifies this`accounts
      ensures View() == store + rows
    {
      accounts := rows;
    }
  }

  class CoinbaseLedger {
    var entries: seq<Entry>

    constructor ()
      ensures entries == []
    {
      entries := [];
    }

    method Push(height: nat, a: Address, credit: U128)
      modifies this
      ensures entries == old(entries) + [Entry(height, a, credit)]
    {
      entries := entries + [Entry(height, a, credit)];
    }

    /** The immature credits of an address, each addition saturating. */
    method ImmatureAt(a: Address, spend: nat) returns (sum: U128)
      ensures sum == Saturated(Immature(entries, a, spend))
    {
      sum := 0;
      for i := 0 to |entries|
        invariant sum == Saturated(Immature(entries[..i], a, spend))
      {
        var e := entries[i];
        assert entries[..i + 1][..i] == entries[..i];
        if e.addr == a && !Mature(e.height, spend) {
          sum := Saturated(sum + e.credit);
        }
      }
      assert entries[..|entries|] == entries;
    }

    method SpendableOf(a: Address, balance: U128, spend: nat) returns (r: U128)
      ensures r == Spendable(entries, a, balance, spend)
    {
      var imm := ImmatureAt(a, spend);
      r := if balance >= imm then balance - imm else 0;
    }
  }

  // ----- the checks that need no state -----

  method DecodeBody(rules: Rules, records: seq<Bytes>) returns (r: Result<seq<Tx>, Reject>)
    ensures r == DecodeFirst(rules, records, |records|)
  {
    var txs := [];
    for i := 0 to |records|
      invariant DecodeFirst(rules, records, i) == Ok(txs)
    {
      match rules.decode(records[i]) {
        case None =>
          DecodeStuck(rules, records, i + 1, |records|);
          return Err(TxRejected(i, RecordDoesNotDecode));
        case Some(tx) => txs := txs + [tx];
      }
    }
    r := Ok(txs);
  }

  lemma {:induction false} DecodeStuck(rules: Rules, records: seq<Bytes>, i: nat, n: nat)
    requires i <= n <= |records| && DecodeFirst(rules, records, i).Err?
    ensures DecodeFirst(rules, records, n) == DecodeFirst(rules, records, i)
    decreases n
  {
    if i < n {
      DecodeStuck(rules, records, i, n - 1);
    }
  }

  method CheckBodyStructure(txs: seq<Tx>) returns (r: Result<Tx, Reject>)
    ensures r == CheckStructure(txs)
  {
    if txs == [] || !txs[0].Coinbase? {
      return Err(TxRejected(0, MissingCoinbase));
    }
    for i := 1 to |txs|
      invariant SecondCoinbase(txs, i).None?
    {
      if txs[i].Coinbase? {
        CoinbaseStuck(txs, i + 1, |txs|);
        return Err(TxRejected(0, MisplacedCoinbase(i)));
      }
    }
    r := Ok(txs[0]);
  }

  lemma {:induction false} CoinbaseStuck(txs: seq<Tx>, i: nat, n: nat)
    requires i <= n <= |txs| && SecondCoinbase(txs, i).Some?
    ensures SecondCoinbase(txs, n) == SecondCoinbase(txs, i)
    decreases n
  {
    if i < n {
      CoinbaseStuck(txs, i, n - 1);
    }
  }

  method CheckSignatures(rules: Rules, trust: Trust, txs: seq<Tx>) returns (r: Option<Reject>)
    ensures r == CheckAuthorities(rules, trust, txs, |txs|)
  {
    for i := 0 to |txs|
      invariant CheckAuthorities(rules, trust, txs, i).None?
    {
      var e := CheckAuthority(rules, trust, txs[i], i);
      if e.Some? {
        AuthorityStuck(rules, trust, txs, i + 1, |txs|);
        return e;
      }
    }
    r := None;
  }

  lemma {:induction false} AuthorityStuck(rules: Rules, trust: Trust, txs: seq<Tx>, i: nat, n: nat)
    requires i <= n <= |txs| && CheckAuthorities(rules, trust, txs, i).Some?
    ensures CheckAuthorities(rules, trust, txs, n) == CheckAuthorities(rules, trust, txs, i)
    decreases n
  {
    if i < n {
      AuthorityStuck(rules, trust, txs, i, n - 1);
    }
  }

  /** The fee total; a checked addition fails exactly when the whole sum does not fit. */
  method BlockFeeTotal(txs: seq<Tx>) returns (r: Option<U128>)
    ensures r == if Fees(txs) > MAX_U128 then None else Some(Fees(txs))
  {
    var total: U128 := 0;
    for i := 0 to |txs|
      invariant total == Fees(txs[..i])
    {
      assert txs[..i + 1][..i] == txs[..i];
      if total + txs[i].Fee() > MAX_U128 {
        FeesGrow(txs, i + 1);
        return None;
      }
      total := total + txs[i].Fee();
    }
    assert txs[..|txs|] == txs;
    r := Some(total);
  }

  lemma {:induction false} FeesGrow(txs: seq<Tx>, i: nat)
    requires i <= |txs|
    ensures Fees(txs[..i]) <= Fees(txs)
    decreases |txs| - i
  {
    if i == |txs| {
      assert txs[..i] == txs;
    } else {
      FeesGrow(txs, i + 1);
      assert txs[..i + 1][..i] == txs[..i];
    }
  }

  method CheckBodyOf(rules: Rules, header: Header, raw: Bytes, trust: Trust) returns (r: Result<Checked, Reject>)
    ensures r == CheckBody(rules, header, raw, trust)
  {
    hide DecodeFirst, SecondCoinbase, CheckAuthorities, Fees;
    var parsed := rules.parse(raw);
    if parsed.None? {
      return Err(BodyStructure);
    }
    var records := parsed.value;
    var decoded := DecodeBody(rules, records);
    if decoded.Err? {
      return Err(decoded.error);
    }
    var txs := decoded.value;
    var cb := CheckBodyStructure(txs);
    if cb.Err? {
      return Err(cb.error);
    }
    if rules.root(records) != header.txRoot {
      return Err(TxRootMismatch);
    }
    var bad := CheckSignatures(rules, trust, txs);
    if bad.Some? {
      return Err(bad.value);
    }
    var fees := BlockFeeTotal(txs);
    if fees.None? {
      return Err(TxRejected(0, FeeSumOverflow));
    }
    var wrong := CheckCoinbase(cb.value, header, fees.value);
    if wrong.Some? {
      return Err(TxRejected(0, wrong.value));
    }
    if cb.value.reward + cb.value.fees > MAX_U128 {
      return Err(TxRejected(0, AmountOverflow));
    }
    r := Ok(Checked(records, txs));
  }

  // ----- the transactions -----

  method DoTransfer(rules: Rules, o: Overlay, l: CoinbaseLedger, height: nat, t: Tx, i: nat, ghost s: State)
      returns (r: Option<Reject>)
    requires t.Transfer? && o.Valid() && Same(o.View(), s)
    modifies o`accounts, o`undo, o`order
    ensures o.Valid()
    ensures var spec := ApplyTransfer(rules, s, l.entries, height, t, i);
            if spec.Ok? then r.None? && Same(o.View(), spec.value) else r == Some(spec.error)
  {
    hide Immature, Spendable, Same, Overlay.Valid, Credited;
    if t.fee < FEE_FLOOR {
      return Some(FeeBelowFloor(i));
    }
    var from := rules.From(t);
    var acct := Fetch(o, from, s);
    if acct.nonce != t.nonce {
      return Some(BadNonce(i, acct.nonce, t.nonce));
    }
    if t.amount + t.fee > MAX_U128 {
      return Some(ArithmeticOverflow);
    }
    var have := l.SpendableOf(from, acct.balance, height);
    if have < t.amount + t.fee {
      return Some(InsufficientBalance(i, t.amount + t.fee, have));
    }
    if acct.nonce == MAX_U64 {
      return Some(ArithmeticOverflow);
    }
    var updated := Account(acct.balance - (t.amount + t.fee), acct.nonce + 1);
    Store(o, from, updated, s);
    ghost var mid := o.View();
    r := o.Credit(t.to, t.amount);
    CreditedSame(mid, s[from := updated], t.to, t.amount, o.View());
  }

  lemma CreditedSame(s: State, t: State, a: Address, amount: U128, v: State)
    requires Same(s, t)
    ensures Credited(s, a, amount).Err? ==> Credited(t, a, amount) == Credited(s, a, amount)
    ensures Credited(s, a, amount).Ok? ==>
              Credited(t, a, amount).Ok?
                && (Same(v, Credited(s, a, amount).value) ==> Same(v, Credited(t, a, amount).value))
  {
    hide Same;
    SameAt(s, t, a);
    if Credited(s, a, amount).Ok? {
      var next := Account(Get(s, a).balance + amount, Get(s, a).nonce);
      SameUpdate(s, t, a, next);
      if Same(v, s[a := next]) {
        SameTrans(v, s[a := next], t[a := next]);
      }
    }
  }

  method Fetch(o: Overlay, a: Address, ghost s: State) returns (acct: Account)
    requires o.Valid() && Same(o.View(), s)
    modifies o`accounts
    ensures o.Valid() && Same(o.View(), s) && acct == Get(s, a)
  {
    hide Same, Overlay.Valid;
    acct := o.Get(a);
    SameTrans(o.View(), old(o.View()), s);
    SameAt(o.View(), s, a);
  }

  method Store(o: Overlay, a: Address, acct: Account, ghost s: State)
    requires o.Valid() && Same(o.View(), s)
    modifies o`accounts, o`undo, o`order
    ensures o.Valid() && Same(o.View(), s[a := acct])
  {
    hide Same, Overlay.Valid;
    o.Set(a, acct);
    SameUpdate(old(o.View()), s, a, acct);
    SameTrans(o.View(), old(o.View())[a := acct], s[a := acct]);
  }

  method DoAnnouncement(rules: Rules, o: Overlay, l: CoinbaseLedger, height: nat, t: Tx, i: nat, ghost s: State)
      returns (r: Option<Reject>)
    requires t.Announcement? && o.Valid() && Same(o.View(), s)
    modifies o`accounts, o`undo, o`order
    ensures o.Valid()
    ensures var spec := ApplyAnnouncement(rules, s, l.entries, height, t, i);
            if spec.Ok? then r.None? && Same(o.View(), spec.value) else r == Some(spec.error)
  {
    hide Immature, Spendable, Same, Overlay.Valid;
    var from := rules.From(t);
    var acct := Fetch(o, from, s);
    var have := l.SpendableOf(from, acct.balance, height);
    if t.fee < FEE_FLOOR {
      return Some(TxRejected(i, FeeTooLow(t.fee)));
    }
    if t.nonce != acct.nonce {
      return Some(TxRejected(i, WrongNonce(acct.nonce, t.nonce)));
    }
    if have < t.fee {
      return Some(TxRejected(i, NotEnough(t.fee, have)));
    }
    if acct.nonce == MAX_U64 {
      return Some(TxRejected(i, AmountOverflow));
    }
    Store(o, from, Account(acct.balance - t.fee, acct.nonce + 1), s);
    r := None;
  }

  lemma {:induction false} ApplyStuck(rules: Rules, s: State, led: seq<Entry>, height: nat, body: Checked, i: nat,
                                      n: nat)
    requires body.Valid() && 1 <= i <= n <= |body.txs| && ApplyFirst(rules, s, led, height, body, i).Err?
    ensures ApplyFirst(rules, s, led, height, body, n) == ApplyFirst(rules, s, led, height, body, i)
    decreases n
  {
    hide ApplyTx;
    if i < n {
      ApplyStuck(rules, s, led, height, body, i, n - 1);
    }
  }

  /** The identifiers and raw records that go with a body, coinbase first in the former and
      left out of the latter. */
  function Txids(rules: Rules, txs: seq<Tx>): seq<Hash> { seq(|txs|, i requires 0 <= i < |txs| => rules.txid(txs[i])) }

  method ApplyTxs(rules: Rules, o: Overlay, l: CoinbaseLedger, height: nat, body: Checked, ghost s: State)
      returns (r: Result<(seq<Hash>, seq<(Address, nat)>, seq<Bytes>), Reject>)
    requires body.Valid() && o.Valid()
    requires ApplyFirst(rules, s, l.entries, height, body, 1).Ok?
    requires Same(o.View(), ApplyFirst(rules, s, l.entries, height, body, 1).value)
    modifies o`accounts, o`undo, o`order
    ensures o.Valid()
    ensures var spec := ApplyFirst(rules, s, l.entries, height, body, |body.txs|);
            && r.Ok? == spec.Ok?
            && (spec.Err? ==> r.error == spec.error)
            && (spec.Ok? ==>
                  && Same(o.View(), spec.value)
                  && r.value == (Txids(rules, body.txs), Spent(rules, body, |body.txs|), body.records[1..]))
  {
    hide ApplyTransfer, ApplyAnnouncement, Same, Overlay.Valid, Credited;
    var txids, spent, raws := [rules.txid(body.Cb())], [], [];
    for i := 1 to |body.txs|
      invariant o.Valid()
      invariant ApplyFirst(rules, s, l.entries, height, body, i).Ok?
      invariant Same(o.View(), ApplyFirst(rules, s, l.entries, height, body, i).value)
      invariant txids == Txids(rules, body.txs[..i]) && spent == Spent(rules, body, i) && raws == body.records[1..i]
    {
      var tx := body.txs[i];
      ghost var now := ApplyFirst(rules, s, l.entries, height, body, i).value;
      var e;
      if tx.Transfer? {
        e := DoTransfer(rules, o, l, height, tx, i, now);
      } else {
        e := DoAnnouncement(rules, o, l, height, tx, i, now);
      }
      if e.Some? {
        ApplyStuck(rules, s, l.entries, height, body, i + 1, |body.txs|);
        return Err(e.value);
      }
      txids := txids + [rules.txid(tx)];
      spent := spent + [(rules.From(tx), tx.nonce)];
      raws := raws + [body.records[i]];
    }
    assert body.txs[..|body.txs|] == body.txs && body.records[1..|body.txs|] == body.records[1..];
    r := Ok((txids, spent, raws));
  }

  /** What the validator reports of an accepted block. */
  ghost predicate Reports(rules: Rules, v: ValidatedBlock, body: Checked, before: State, after: State) {
    && body.Valid()
    && (exists order :: Describes(order, v.undo, v.deltas, before, after))
    && v.issued == body.Cb().reward && v.coinbaseTo == body.Cb().to && v.coinbaseCredit == body.Credit()
    && v.txids == Txids(rules, body.txs) && v.spent == Spent(rules, body, |body.txs|) && v.records == body.records[1..]
  }

  method Finish(o: Overlay, ghost before: State) returns (undo: seq<UndoRec>, deltas: seq<StateDelta>)
    requires o.Valid() && o.begun == before
    modifies o`accounts
    ensures Describes(o.order, undo, deltas, before, o.View()) && Same(o.View(), old(o.View()))
  {
    undo := o.UndoRecords();
    deltas := o.Deltas();
  }

  /** Accepts and refuses exactly what the transition does, for the same reason; on
      acceptance the overlay shows the new accounts, the entries the new coinbase. */
  method ValidateBlockBody(rules: Rules, o: Overlay, l: CoinbaseLedger, header: Header, raw: Bytes, trust: Trust)
      returns (r: Result<ValidatedBlock, Reject>)
    modifies o, l
    ensures var spec := ApplyBlock(rules, Chain(old(o.View()), old(l.entries)), Block(header, raw), trust);
            && r.Ok? == spec.Ok?
            && (spec.Err? ==> r.error == spec.error)
            && (spec.Ok? ==>
                  && Same(o.View(), spec.value.accounts) && l.entries == spec.value.led
                  && Reports(rules, r.value, CheckBody(rules, header, raw, trust).value, old(o.View()), o.View()))
  {
    hide CheckBody, Same, Credited, Describes;
    var checked := CheckBodyOf(rules, header, raw, trust);
    if checked.Err? {
      return Err(checked.error);
    }
    CheckedIsValid(rules, header, raw, trust);
    var body := checked.value;
    ghost var before := o.View();
    o.BeginBlock();
    var e := o.Credit(body.Cb().to, body.Credit());
    if e.Some? {
      ApplyStuck(rules, before, WithCoinbase(l.entries, header.height, body), header.height, body, 1, |body.txs|);
      return Err(e.value);
    }
    l.Push(header.height, body.Cb().to, body.Credit());
    var done := ApplyTxs(rules, o, l, header.height, body, before);
    if done.Err? {
      return Err(done.error);
    }
    ghost var after := o.View();
    var undo, deltas := Finish(o, before);
    SameTrans(o.View(), after, ApplyFirst(rules, before, l.entries, header.height, body, |body.txs|).value);
    r := Ok(ValidatedBlock(deltas, undo, body.Cb().reward, body.Cb().to, body.Credit(),
                           done.value.0, done.value.1, done.value.2));
  }
}
