/** The state transition of the coin: what one block body does to accounts and immature
    coinbases, and which bodies are refused. */
module Ledger {
  import opened Wrappers

  const MAX_U64: nat := 0xFFFF_FFFF_FFFF_FFFF
  const MAX_U128: nat := 0xFFFF_FFFF_FFFF_FFFF_FFFF_FFFF_FFFF_FFFF

  type U64 = n: nat | n <= MAX_U64
  type U128 = n: nat | n <= MAX_U128
  type Bytes = seq<bv8>
  type Pubkey = seq<bv8>
  type Hash = seq<bv8>

  const FEE_FLOOR: nat := 1
  const MATURITY: nat := 60
  const SUBSIDY: nat := 200_000
  const NOTE_MAX: nat := 256
  const ANNOUNCEMENT_MAX: nat := 1024

  datatype Address = Address(hash: Bytes)

  datatype Account = Account(balance: U128, nonce: U64) {
    predicate IsAbsent() { balance == 0 && nonce == 0 }
  }

  const ABSENT := Account(0, 0)

  /** Accounts that exist; every other address is absent. */
  type State = map<Address, Account>

  function Get(s: State, a: Address): Account { if a in s then s[a] else ABSENT }

  /** The same account at every address. */
  ghost predicate Same(s: State, t: State) { forall a: Address :: Get(s, a) == Get(t, a) }

  datatype Tx =
    | Coinbase(height: U64, to: Address, reward: U128, fees: U128, note: Bytes)
    | Transfer(fromPub: Pubkey, to: Address, amount: U128, fee: U128, nonce: U64, sig: Bytes)
    | Announcement(fromPub: Pubkey, fee: U128, nonce: U64, encoding: bv8, payload: Bytes, sig: Bytes)
  {
    function Fee(): U128 { if Coinbase? then 0 else fee }
  }

  datatype Header = Header(height: U64, txRoot: Hash, noteLen: nat, time: U64)

  datatype Block = Block(header: Header, raw: Bytes)

  datatype TxError =
    | NotAuthorKey | BadSignature | AnnouncementLength(len: nat) | FeeTooLow(fee: nat)
    | WrongNonce(expected: nat, got: nat) | NotEnough(need: nat, have: nat)
    | AmountOverflow | FeeSumOverflow | RecordDoesNotDecode
    | MissingCoinbase | MisplacedCoinbase(at: nat)
    | CoinbaseHeightMismatch(header: nat, coinbase: nat)
    | CoinbaseRewardMismatch(expectedReward: nat, gotReward: nat)
    | CoinbaseFeesMismatch(expectedFees: nat, gotFees: nat)
    | AuthorNoteTooLong(noteLen: nat) | AuthorNoteLenMismatch(headerLen: nat, coinbaseLen: nat)

  datatype Reject =
    | BodyStructure
    | TxRejected(index: nat, err: TxError)
    | TxRootMismatch
    | BadTransferSignature(index: nat)
    | FeeBelowFloor(index: nat)
    | BadNonce(index: nat, expected: nat, got: nat)
    | InsufficientBalance(index: nat, need: nat, have: nat)
    | ArithmeticOverflow

  datatype Trust = OurStore | Untrusted

  /** What is outside the model: record framing, the transaction codec, the Merkle root,
      transaction identifiers, addresses of keys, and signatures. */
  datatype Rules = Rules(
    parse: Bytes -> Option<seq<Bytes>>,
    decode: Bytes -> Option<Tx>,
    root: seq<Bytes> -> Hash,
    txid: Tx -> Hash,
    payload: Pubkey -> Address,
    author: Pubkey,
    signed: Tx -> bool)
  {
    /** The account a transaction spends from. */
    function From(tx: Tx): Address
      requires !tx.Coinbase?
    {
      payload(tx.fromPub)
    }
  }

  function BlockReward(height: nat): U128 { if height == 0 then 0 else SUBSIDY }

  // ----- immature coinbases -----

  datatype Entry = Entry(height: nat, addr: Address, credit: U128)

  predicate Mature(coinbaseHeight: nat, spendHeight: nat) {
    spendHeight >= coinbaseHeight && spendHeight - coinbaseHeight >= MATURITY
  }

  /** The credits of an address that are not mature yet, added up exactly. */
  function Immature(led: seq<Entry>, a: Address, spend: nat): nat {
    if led == [] then 0
    else
      var e := led[|led| - 1];
      Immature(led[..|led| - 1], a, spend) + if e.addr == a && !Mature(e.height, spend) then e.credit else 0
  }

  function Saturated(n: nat): U128 { if n <= MAX_U128 then n else MAX_U128 }

  /** What an address may spend: both operations saturate. */
  function Spendable(led: seq<Entry>, a: Address, balance: U128, spend: nat): (r: U128)
    ensures r <= balance
  {
    var imm := Saturated(Immature(led, a, spend));
    if balance >= imm then balance - imm else 0
  }

  // ----- checks that need no state -----

  function DecodeFirst(rules: Rules, records: seq<Bytes>, n: nat): Result<seq<Tx>, Reject>
    requires n <= |records|
  {
    if n == 0 then Ok([])
    else
      var r := DecodeFirst(rules, records, n - 1);
      if r.Err? then r
      else
        match rules.decode(records[n - 1])
        case None => Err(TxRejected(n - 1, RecordDoesNotDecode))
        case Some(tx) => Ok(r.value + [tx])
  }

  /** The first coinbase after index 0, if any below n. */
  function SecondCoinbase(txs: seq<Tx>, n: nat): Option<nat>
    requires n <= |txs|
  {
    if n <= 1 then None
    else if SecondCoinbase(txs, n - 1).Some? then SecondCoinbase(txs, n - 1)
    else if txs[n - 1].Coinbase? then Some(n - 1) else None
  }

  function CheckStructure(txs: seq<Tx>): Result<Tx, Reject> {
    if txs == [] || !txs[0].Coinbase? then Err(TxRejected(0, MissingCoinbase))
    else
      match SecondCoinbase(txs, |txs|)
      case Some(i) => Err(TxRejected(0, MisplacedCoinbase(i)))
      case None => Ok(txs[0])
  }

  /** The check of one transaction's authority: signatures for blocks from others, the
      author's key alone for blocks of the own store. */
  function CheckAuthority(rules: Rules, trust: Trust, tx: Tx, i: nat): Option<Reject> {
    match tx
    case Coinbase(_, _, _, _, _) => None
    case Transfer(_, _, _, _, _, _) =>
      if trust.Untrusted? && !rules.signed(tx) then Some(BadTransferSignature(i)) else None
    case Announcement(fromPub, _, _, _, payload, _) =>
      if fromPub != rules.author then Some(TxRejected(i, NotAuthorKey))
      else if trust.OurStore? then None
      else if !(1 <= |payload| <= ANNOUNCEMENT_MAX) then Some(TxRejected(i, AnnouncementLength(|payload|)))
      else if !rules.signed(tx) then Some(TxRejected(i, BadSignature))
      else None
  }

  function CheckAuthorities(rules: Rules, trust: Trust, txs: seq<Tx>, n: nat): Option<Reject>
    requires n <= |txs|
  {
    if n == 0 then None
    else if CheckAuthorities(rules, trust, txs, n - 1).Some? then CheckAuthorities(rules, trust, txs, n - 1)
    else CheckAuthority(rules, trust, txs[n - 1], n - 1)
  }

  function Fees(txs: seq<Tx>): nat {
    if txs == [] then 0 else Fees(txs[..|txs| - 1]) + txs[|txs| - 1].Fee()
  }

  function CheckCoinbase(cb: Tx, header: Header, fees: nat): Option<TxError>
    requires cb.Coinbase?
  {
    if cb.height != header.height then Some(CoinbaseHeightMismatch(header.height, cb.height))
    else if cb.reward != BlockReward(header.height) then Some(CoinbaseRewardMismatch(BlockReward(header.height),
        cb.reward))
    else if cb.fees != fees then Some(CoinbaseFeesMismatch(fees, cb.fees))
    else if |cb.note| > NOTE_MAX then Some(AuthorNoteTooLong(|cb.note|))
    else if header.noteLen != |cb.note| then Some(AuthorNoteLenMismatch(header.noteLen, |cb.note|))
    else None
  }

  /** A body that passed every check that needs no state. */
  datatype Checked = Checked(records: seq<Bytes>, txs: seq<Tx>) {
    function Cb(): Tx
      requires txs != []
    {
      txs[0]
    }

    predicate Valid() {
      && |records| == |txs| && txs != [] && txs[0].Coinbase?
      && (forall i :: 1 <= i < |txs| ==> !txs[i].Coinbase?)
      && txs[0].fees == Fees(txs)
      && txs[0].reward + txs[0].fees <= MAX_U128
    }

    function Credit(): U128
      requires Valid()
    {
      txs[0].reward + txs[0].fees
    }
  }

  lemma {:induction false} NoSecondCoinbase(txs: seq<Tx>, n: nat)
    requires n <= |txs|
    ensures SecondCoinbase(txs, n).None? <==> forall i :: 1 <= i < n ==> !txs[i].Coinbase?
  {
    if n > 1 {
      NoSecondCoinbase(txs, n - 1);
    }
  }

  lemma {:induction false} DecodedLength(rules: Rules, records: seq<Bytes>, n: nat)
    requires n <= |records|
    ensures var r := DecodeFirst(rules, records, n); r.Ok? ==> |r.value| == n
  {
    if n > 0 {
      DecodedLength(rules, records, n - 1);
    }
  }

  function CheckTotals(header: Header, records: seq<Bytes>, txs: seq<Tx>): Result<Checked, Reject>
    requires txs != [] && txs[0].Coinbase?
  {
    if Fees(txs) > MAX_U128 then Err(TxRejected(0, FeeSumOverflow))
    else
      match CheckCoinbase(txs[0], header, Fees(txs))
      case Some(e) => Err(TxRejected(0, e))
      case None =>
        if txs[0].reward + txs[0].fees > MAX_U128 then Err(TxRejected(0, AmountOverflow))
        else Ok(Checked(records, txs))
  }

  /** Parse, decode, structure, root, authority, fee total, coinbase: in the order the
      validator runs them. */
  function CheckBody(rules: Rules, header: Header, raw: Bytes, trust: Trust): Result<Checked, Reject> {
    match rules.parse(raw)
    case None => Err(BodyStructure)
    case Some(records) =>
      var decoded := DecodeFirst(rules, records, |records|);
      if decoded.Err? then Err(decoded.error)
      else
        var txs := decoded.value;
        var cb := CheckStructure(txs);
        if cb.Err? then Err(cb.error)
        else if rules.root(records) != header.txRoot then Err(TxRootMismatch)
        else
          match CheckAuthorities(rules, trust, txs, |txs|)
          case Some(e) => Err(e)
          case None => CheckTotals(header, records, txs)
  }

  lemma CheckedIsValid(rules: Rules, header: Header, raw: Bytes, trust: Trust)
    requires CheckBody(rules, header, raw, trust).Ok?
    ensures var c := CheckBody(rules, header, raw, trust).value;
            c.Valid() && c.Cb().height == header.height && c.Cb().reward == BlockReward(header.height)
  {
    hide DecodeFirst, SecondCoinbase, CheckAuthorities, Fees;
    var records := rules.parse(raw).value;
    DecodedLength(rules, records, |records|);
    var txs := DecodeFirst(rules, records, |records|).value;
    NoSecondCoinbase(txs, |txs|);
  }

  // ----- the accounts -----

  function Credited(s: State, a: Address, amount: U128): Result<State, Reject> {
    var acct := Get(s, a);
    if acct.balance + amount > MAX_U128 then Err(ArithmeticOverflow)
    else Ok(s[a := Account(acct.balance + amount, acct.nonce)])
  }

  function ApplyTransfer(rules: Rules, s: State, led: seq<Entry>, height: nat, t: Tx, i: nat): Result<State, Reject>
    requires t.Transfer?
  {
    var from := rules.From(t);
    var acct := Get(s, from);
    var have := Spendable(led, from, acct.balance, height);
    if t.fee < FEE_FLOOR then Err(FeeBelowFloor(i))
    else if acct.nonce != t.nonce then Err(BadNonce(i, acct.nonce, t.nonce))
    else if t.amount + t.fee > MAX_U128 then Err(ArithmeticOverflow)
    else if have < t.amount + t.fee then Err(InsufficientBalance(i, t.amount + t.fee, have))
    else if acct.nonce == MAX_U64 then Err(ArithmeticOverflow)
    else Credited(s[from := Account(acct.balance - (t.amount + t.fee), acct.nonce + 1)], t.to, t.amount)
  }

  function ApplyAnnouncement(rules: Rules, s: State, led: seq<Entry>, height: nat, t: Tx, i: nat): Result<State, Reject>
    requires t.Announcement?
  {
    var from := rules.From(t);
    var acct := Get(s, from);
    var have := Spendable(led, from, acct.balance, height);
    if t.fee < FEE_FLOOR then Err(TxRejected(i, FeeTooLow(t.fee)))
    else if t.nonce != acct.nonce then Err(TxRejected(i, WrongNonce(acct.nonce, t.nonce)))
    else if have < t.fee then Err(TxRejected(i, NotEnough(t.fee, have)))
    else if acct.nonce == MAX_U64 then Err(TxRejected(i, AmountOverflow))
    else Ok(s[from := Account(acct.balance - t.fee, acct.nonce + 1)])
  }

  function ApplyTx(rules: Rules, s: State, led: seq<Entry>, height: nat, tx: Tx, i: nat): Result<State, Reject>
    requires !tx.Coinbase?
  {
    if tx.Transfer? then ApplyTransfer(rules, s, led, height, tx, i)
    else ApplyAnnouncement(rules, s, led, height, tx, i)
  }

  /** The coinbase and then the transactions 1 .. n - 1, in order. */
  function ApplyFirst(rules: Rules, s: State, led: seq<Entry>, height: nat, body: Checked,
                      n: nat): Result<State, Reject>
    requires body.Valid() && 1 <= n <= |body.txs|
  {
    if n == 1 then Credited(s, body.Cb().to, body.Credit())
    else
      var r := ApplyFirst(rules, s, led, height, body, n - 1);
      if r.Err? then r else ApplyTx(rules, r.value, led, height, body.txs[n - 1], n - 1)
  }

  /** Accounts and coinbase entries after some blocks. */
  datatype Chain = Chain(accounts: State, led: seq<Entry>)

  function WithCoinbase(led: seq<Entry>, height: nat, body: Checked): seq<Entry>
    requires body.Valid()
  {
    led + [Entry(height, body.Cb().to, body.Credit())]
  }

  /** The transition: the coinbase is credited and entered before any transaction runs. */
  function ApplyBlock(rules: Rules, c: Chain, b: Block, trust: Trust): Result<Chain, Reject> {
    var checked := CheckBody(rules, b.header, b.raw, trust);
    if checked.Err? then Err(checked.error)
    else
      CheckedIsValid(rules, b.header, b.raw, trust);
      var body := checked.value;
      var led := WithCoinbase(c.led, b.header.height, body);
      var r := ApplyFirst(rules, c.accounts, led, b.header.height, body, |body.txs|);
      if r.Err? then Err(r.error) else Ok(Chain(r.value, led))
  }

  /** The blocks of a chain in order, from a starting state. */
  function Replay(rules: Rules, start: Chain, blocks: seq<Block>): Result<Chain, Reject> {
    if blocks == [] then Ok(start)
    else
      var r := Replay(rules, start, blocks[..|blocks| - 1]);
      if r.Err? then r else ApplyBlock(rules, r.value, blocks[|blocks| - 1], Untrusted)
  }

  lemma {:induction false} ReplayAppend(rules: Rules, start: Chain, a: seq<Block>, b: seq<Block>)
    requires Replay(rules, start, a).Ok?
    ensures Replay(rules, start, a + b) == Replay(rules, Replay(rules, start, a).value, b)
  {
    hide ApplyBlock;
    if b == [] {
      assert a + b == a;
    } else {
      ReplayAppend(rules, start, a, b[..|b| - 1]);
      assert (a + b)[..|a + b| - 1] == a + b[..|b| - 1];
    }
  }
}
