/** The block template a miner is given, against the validator that will judge it. */
module Template {
  import opened Wrappers
  import opened Ledger
  import opened LedgerLaws
  import A = HeaderArena

  const MEDIAN_TIME_SPAN: nat := 11

  // ----- the median of the last eleven times -----

  predicate Sorted(s: seq<nat>) { forall i, j :: 0 <= i < j < |s| ==> s[i] <= s[j] }

  function Inserted(s: seq<nat>, x: nat): (r: seq<nat>)
    ensures |r| == |s| + 1
  {
    if s == [] then [x]
    else if x <= s[0] then [x] + s
    else [s[0]] + Inserted(s[1..], x)
  }

  function Sort(s: seq<nat>): (r: seq<nat>)
    ensures |r| == |s|
  {
    if s == [] then [] else Inserted(Sort(s[..|s| - 1]), s[|s| - 1])
  }

  lemma {:induction false} InsertedBag(s: seq<nat>, x: nat)
    ensures multiset(Inserted(s, x)) == multiset(s) + multiset{x}
  {
    if s != [] && x > s[0] {
      InsertedBag(s[1..], x);
      assert s == [s[0]] + s[1..];
    }
  }

  lemma {:induction false} InsertedSorted(s: seq<nat>, x: nat)
    requires Sorted(s)
    ensures Sorted(Inserted(s, x))
  {
    if s != [] && x > s[0] {
      var r := Inserted(s[1..], x);
      InsertedSorted(s[1..], x);
      InsertedBag(s[1..], x);
      forall i | 0 <= i < |r| ensures s[0] <= r[i] {
        assert r[i] in multiset(r);
        if r[i] != x {
          assert r[i] in s[1..];
        }
      }
    }
  }

  lemma {:induction false} SortSorts(s: seq<nat>)
    ensures Sorted(Sort(s)) && multiset(Sort(s)) == multiset(s)
  {
    if s != [] {
      var front := Sort(s[..|s| - 1]);
      SortSorts(s[..|s| - 1]);
      InsertedSorted(front, s[|s| - 1]);
      InsertedBag(front, s[|s| - 1]);
      assert s == s[..|s| - 1] + [s[|s| - 1]];
    }
  }

  /** The times that count: the last eleven, or all when there are fewer. */
  function Window(times: seq<nat>): (w: seq<nat>)
    ensures |w| <= MEDIAN_TIME_SPAN && (times != [] ==> w != [])
  {
    if |times| > MEDIAN_TIME_SPAN then times[|times| - MEDIAN_TIME_SPAN..] else times
  }

  function MedianTimePast(times: seq<nat>): nat
    requires times != []
  {
    var w := Window(times);
    Sort(w)[|w| / 2]
  }

  function AtMost(s: seq<nat>,
                  x: nat): nat { if s == [] then 0 else AtMost(s[..|s| - 1], x) + if s[|s| - 1] <= x then 1 else 0 }

  lemma {:induction false} AtMostAppend(s: seq<nat>, t: seq<nat>, x: nat)
    ensures AtMost(s + t, x) == AtMost(s, x) + AtMost(t, x)
  {
    if t == [] {
      assert s + t == s;
    } else {
      AtMostAppend(s, t[..|t| - 1], x);
      assert (s + t)[..|s + t| - 1] == s + t[..|t| - 1];
    }
  }

  lemma AtMostOne(y: nat, x: nat)
    ensures AtMost([y], x) == if y <= x then 1 else 0
  {
    assert [y][..0] == [];
  }

  lemma {:induction false} InsertedAtMost(s: seq<nat>, y: nat, x: nat)
    ensures AtMost(Inserted(s, y), x) == AtMost(s, x) + if y <= x then 1 else 0
  {
    hide AtMost;
    AtMostOne(y, x);
    if s == [] {
      assert [y] == [] + [y];
      AtMostAppend([], [y], x);
    } else if y <= s[0] {
      AtMostAppend([y], s, x);
    } else {
      InsertedAtMost(s[1..], y, x);
      assert s == [s[0]] + s[1..];
      AtMostAppend([s[0]], s[1..], x);
      AtMostAppend([s[0]], Inserted(s[1..], y), x);
    }
  }

  lemma {:induction false} SortAtMost(s: seq<nat>, x: nat)
    ensures AtMost(Sort(s), x) == AtMost(s, x)
  {
    if s != [] {
      SortAtMost(s[..|s| - 1], x);
      InsertedAtMost(Sort(s[..|s| - 1]), s[|s| - 1], x);
    }
  }

  lemma {:induction false} SortedAtMost(s: seq<nat>, k: nat)
    requires Sorted(s) && k < |s|
    ensures AtMost(s, s[k]) >= k + 1
    decreases |s|
  {
    if k == |s| - 1 {
      AllAtMost(s, s[k]);
    } else {
      SortedAtMost(s[..|s| - 1], k);
    }
  }

  lemma {:induction false} AllAtMost(s: seq<nat>, x: nat)
    requires forall i :: 0 <= i < |s| ==> s[i] <= x
    ensures AtMost(s, x) == |s|
  {
    if s != [] {
      AllAtMost(s[..|s| - 1], x);
    }
  }

  function AtLeast(s: seq<nat>,
                   x: nat): nat { if s == [] then 0 else AtLeast(s[..|s| - 1], x) + if s[|s| - 1] >= x then 1 else 0 }

  lemma {:induction false} EitherSide(s: seq<nat>, x: nat)
    ensures AtLeast(s, x) == if x == 0 then |s| else |s| - AtMost(s, x - 1)
  {
    if s != [] {
      EitherSide(s[..|s| - 1], x);
    }
  }

  lemma {:induction false} AtMostSize(s: seq<nat>, x: nat)
    ensures AtMost(s, x) <= |s|
  {
    if s != [] {
      AtMostSize(s[..|s| - 1], x);
    }
  }

  lemma {:induction false} SortedBelow(s: seq<nat>, k: nat, x: nat)
    requires Sorted(s) && k < |s| && x < s[k]
    ensures AtMost(s, x) <= k
    decreases |s|
  {
    if k == |s| - 1 {
      AtMostSize(s[..|s| - 1], x);
    } else {
      SortedBelow(s[..|s| - 1], k, x);
    }
  }

  /** The median is one of the last times; more than half of them are at or below it, and at
      least half at or above. */
  lemma MedianIsMedian(times: seq<nat>)
    requires times != []
    ensures MedianTimePast(times) in Window(times)
    ensures 2 * AtMost(Window(times), MedianTimePast(times)) > |Window(times)|
    ensures 2 * AtLeast(Window(times), MedianTimePast(times)) >= |Window(times)|
  {
    hide AtMost, AtLeast, Sort;
    var w := Window(times);
    SortSorts(w);
    var m := MedianTimePast(times);
    assert m in multiset(Sort(w));
    SortedAtMost(Sort(w), |w| / 2);
    SortAtMost(w, m);
    EitherSide(w, m);
    if m > 0 {
      SortedBelow(Sort(w), |w| / 2, m - 1);
      SortAtMost(w, m - 1);
    }
  }

  // ----- the two readings of the same window -----

  /** Validator: walk up to eleven headers back from the parent, then reverse. */
  function TimeWindow(a: A.Arena, i: nat, span: nat): seq<nat>
    requires a.Linked() && i < |a.nodes|
    decreases span
  {
    if span == 0 then []
    else if a.nodes[i].prev.None? then [a.nodes[i].time]
    else
      A.ParentOf(a, i);
      TimeWindow(a, a.nodes[i].prev.value, span - 1) + [a.nodes[i].time]
  }

  /** Template: the times at the canonical heights from tip - 10 to tip. */
  function CanonicalTimes(a: A.Arena, lo: nat, hi: nat): seq<nat>
    requires a.Valid() && lo <= hi <= |a.canonical|
  {
    seq(hi - lo, k requires 0 <= k < hi - lo => (CanonicalInRange(a, lo + k); a.nodes[a.canonical[lo + k]].time))
  }

  lemma {:induction false} SameWindow(a: A.Arena, h: nat, span: nat)
    requires a.Valid() && h < |a.canonical| && span > 0
    ensures TimeWindow(a, a.canonical[h], span) == CanonicalTimes(a, if h + 1 < span then 0 else h + 1 - span, h + 1)
    decreases span
  {
    hide A.Ancestry, A.Arena.Linked, A.Arena.Based, A.Arena.Chained;
    CanonicalInRange(a, h);
    if h == 0 {
      assert TimeWindow(a, 0, span) == [a.nodes[0].time];
    } else {
      A.CanonicalStep(a, h);
      CanonicalInRange(a, h - 1);
      var lo := if h + 1 < span then 0 else h + 1 - span;
      assert CanonicalTimes(a, lo, h + 1) == CanonicalTimes(a, lo, h) + [a.nodes[a.canonical[h]].time];
      if span > 1 {
        SameWindow(a, h - 1, span - 1);
      } else {
        assert TimeWindow(a, a.canonical[h - 1], 0) == [];
      }
    }
  }

  lemma CanonicalInRange(a: A.Arena, h: nat)
    requires a.Valid() && h < |a.canonical|
    ensures a.canonical[h] < |a.nodes| && (h == 0 ==> a.canonical[0] == 0 && a.nodes[0].prev.None?)
  {
  }

  // ----- the template -----

  /** The encoders, and what they promise: what they write reads back. */
  datatype Encoder = Encoder(tx: Tx -> Option<Bytes>, body: seq<Bytes> -> Option<Bytes>) {
    ghost predicate Inverts(rules: Rules) {
      && (forall t: Tx :: tx(t).Some? ==> rules.decode(tx(t).value) == Some(t))
      && (forall records: seq<Bytes> :: body(records).Some? ==> rules.parse(body(records).value) == Some(records))
    }
  }

  function PoolTxs(rules: Rules, pool: seq<Bytes>): Option<seq<Tx>> {
    if pool == [] then Some([])
    else
      match (PoolTxs(rules, pool[..|pool| - 1]), rules.decode(pool[|pool| - 1]))
      case (Some(txs), Some(tx)) => Some(txs + [tx])
      case _ => None
  }

  lemma {:induction false} PoolDecodes(rules: Rules, pool: seq<Bytes>)
    requires PoolTxs(rules, pool).Some?
    ensures |PoolTxs(rules, pool).value| == |pool|
    ensures forall i :: 0 <= i < |pool| ==> rules.decode(pool[i]) == Some(PoolTxs(rules, pool).value[i])
  {
    if pool != [] {
      PoolDecodes(rules, pool[..|pool| - 1]);
    }
  }

  /** The coinbase a template carries. */
  function TemplateCoinbase(height: U64, to: Address, fees: U128, note: Bytes): Tx {
    Coinbase(height, to, BlockReward(height), fees, note)
  }

  /** What a template is when it is built: the coinbase for the pool's fees, the pool's
      records after it, their root, the note's length, and a time above the median. */
  ghost predicate IsTemplate(rules: Rules, enc: Encoder, height: U64, times: seq<nat>, pool: seq<Bytes>, to: Address,
                             note: Bytes, t: Block) {
    && times != [] && PoolTxs(rules, pool).Some? && Fees(PoolTxs(rules, pool).value) <= MAX_U128
    && var cb := TemplateCoinbase(height, to, Fees(PoolTxs(rules, pool).value), note);
       && enc.tx(cb).Some? && enc.body([enc.tx(cb).value] + pool) == Some(t.raw)
       && t.header.height == height && t.header.noteLen == |note|
       && t.header.txRoot == rules.root([enc.tx(cb).value] + pool)
       && t.header.time > MedianTimePast(times)
  }

  /** The time a template takes: the clock, or one past the median. */
  function TemplateTime(times: seq<nat>, clock: U64): nat
    requires times != []
  {
    if clock > MedianTimePast(times) then clock else MedianTimePast(times) + 1
  }

  /** There is a template: every record of the pool decodes, the fees and the time fit, and both
      encoders accept. */
  ghost predicate Buildable(rules: Rules, enc: Encoder, height: U64, times: seq<nat>, clock: U64, pool: seq<Bytes>,
                            to: Address,
                            note: Bytes)
    requires times != []
  {
    && TemplateTime(times, clock) <= MAX_U64 && PoolTxs(rules, pool).Some?
    && Fees(PoolTxs(rules, pool).value) <= MAX_U128
    && var cb := TemplateCoinbase(height, to, Fees(PoolTxs(rules, pool).value), note);
       enc.tx(cb).Some? && enc.body([enc.tx(cb).value] + pool).Some?
  }

  lemma {:induction false} PoolPrefix(rules: Rules, pool: seq<Bytes>, n: nat)
    requires n <= |pool| && PoolTxs(rules, pool).Some?
    ensures |PoolTxs(rules, pool).value| == |pool| && PoolTxs(rules, pool[..n]) == Some(PoolTxs(rules, pool).value[..n])
  {
    PoolDecodes(rules, pool);
    var all := PoolTxs(rules, pool).value;
    if n == |pool| {
      assert pool[..n] == pool && all[..n] == all;
    } else {
      var front := pool[..|pool| - 1];
      PoolPrefix(rules, front, n);
      assert front[..n] == pool[..n];
      assert all == PoolTxs(rules, front).value + [all[|all| - 1]];
      assert all[..n] == PoolTxs(rules, front).value[..n];
    }
  }

  lemma {:induction false} FeesPrefix(txs: seq<Tx>, n: nat)
    requires n <= |txs|
    ensures Fees(txs[..n]) <= Fees(txs)
  {
    if n == |txs| {
      assert txs[..n] == txs;
    } else {
      FeesPrefix(txs[..|txs| - 1], n);
      assert txs[..|txs| - 1][..n] == txs[..n];
    }
  }

  /** A record that does not decode, or fees past the limit, stop the whole pool. */
  lemma PoolStops(rules: Rules, pool: seq<Bytes>, i: nat, txs: seq<Tx>)
    requires i < |pool| && PoolTxs(rules, pool[..i]) == Some(txs)
    requires rules.decode(pool[i]).None? || Fees(txs) + rules.decode(pool[i]).value.Fee() > MAX_U128
    ensures PoolTxs(rules, pool).None? || Fees(PoolTxs(rules, pool).value) > MAX_U128
  {
    hide PoolTxs, Fees;
    if PoolTxs(rules, pool).Some? {
      PoolDecodes(rules, pool);
      var all := PoolTxs(rules, pool).value;
      PoolPrefix(rules, pool, i);
      FeesStep(all, i);
      FeesPrefix(all, i + 1);
    }
  }

  lemma FeesStep(txs: seq<Tx>, i: nat)
    requires i < |txs|
    ensures Fees(txs[..i + 1]) == Fees(txs[..i]) + txs[i].Fee()
  {
    assert txs[..i + 1][..i] == txs[..i];
  }

  /** The sum of the pool's fees, record by record; nothing when one does not decode or the sum
      does not fit. */
  method PoolFees(rules: Rules, pool: seq<Bytes>) returns (fees: Option<U128>)
    ensures fees.Some? <==> PoolTxs(rules, pool).Some? && Fees(PoolTxs(rules, pool).value) <= MAX_U128
    ensures fees.Some? ==> fees.value == Fees(PoolTxs(rules, pool).value)
  {
    var sum: U128 := 0;
    ghost var txs := [];
    for i := 0 to |pool|
      invariant PoolTxs(rules, pool[..i]) == Some(txs) && sum == Fees(txs)
    {
      var tx := rules.decode(pool[i]);
      if tx.None? || sum + tx.value.Fee() > MAX_U128 {
        PoolStops(rules, pool, i, txs);
        return None;
      }
      assert pool[..i + 1][..i] == pool[..i];
      assert (txs + [tx.value])[..|txs|] == txs;
      sum := sum + tx.value.Fee();
      txs := txs + [tx.value];
    }
    assert pool[..|pool|] == pool;
    fees := Some(sum);
  }

  /** Builds one exactly when there is one. */
  method BuildTemplate(rules: Rules, enc: Encoder, height: U64, times: seq<nat>, clock: U64, pool: seq<Bytes>,
                       to: Address,
                       note: Bytes) returns (t: Option<Block>)
    requires times != []
    ensures t.Some? <==> Buildable(rules, enc, height, times, clock, pool, to, note)
    ensures t.Some? ==> IsTemplate(rules, enc, height, times, pool, to, note, t.value)
    ensures t.Some? ==> t.value.header.time == TemplateTime(times, clock)
  {
    hide MedianTimePast, PoolTxs, Fees;
    var mtp := MedianTimePast(times);
    var time := if clock > mtp then clock else mtp + 1;
    if time > MAX_U64 {
      return None;
    }
    var fees := PoolFees(rules, pool);
    if fees.None? {
      return None;
    }
    var cb := enc.tx(TemplateCoinbase(height, to, fees.value, note));
    if cb.None? {
      return None;
    }
    var records := [cb.value] + pool;
    var raw := enc.body(records);
    if raw.None? {
      return None;
    }
    t := Some(Block(Header(height, rules.root(records), |note|, time), raw.value));
  }

  /** The times the template looked at. */
  function LastTimes(a: A.Arena): seq<nat>
    requires a.Valid()
  {
    var n := |a.canonical|;
    CanonicalTimes(a, if n < MEDIAN_TIME_SPAN then 0 else n - MEDIAN_TIME_SPAN, n)
  }

  /** Its time is above the median the validator takes over the parent's ancestors. */
  lemma TemplateTimeRises(rules: Rules, enc: Encoder, a: A.Arena, pool: seq<Bytes>, to: Address, note: Bytes, t: Block)
    requires a.Valid() && IsTemplate(rules, enc, t.header.height, LastTimes(a), pool, to, note, t)
    ensures a.Linked() && TimeWindow(a, a.Tip(), MEDIAN_TIME_SPAN) != []
    ensures t.header.time > MedianTimePast(TimeWindow(a, a.Tip(), MEDIAN_TIME_SPAN))
  {
    hide MedianTimePast, A.Arena.Linked, A.Arena.Chained, A.Arena.Based, TimeWindow, PoolTxs;
    SameWindow(a, |a.canonical| - 1, MEDIAN_TIME_SPAN);
  }

  // ----- against the checks that need no state -----

  lemma {:induction false} DecodesAll(rules: Rules, records: seq<Bytes>, txs: seq<Tx>, n: nat)
    requires |records| == |txs| && n <= |txs|
    requires forall i :: 0 <= i < |txs| ==> rules.decode(records[i]) == Some(txs[i])
    ensures DecodeFirst(rules, records, n) == Ok(txs[..n])
  {
    if n > 0 {
      DecodesAll(rules, records, txs, n - 1);
      assert txs[..n] == txs[..n - 1] + [txs[n - 1]];
    }
  }

  lemma {:induction false} FeesAfter(cb: Tx, txs: seq<Tx>)
    requires cb.Coinbase?
    ensures Fees([cb] + txs) == Fees(txs)
  {
    if txs == [] {
      assert [cb] + txs == [cb] && [cb][..0] == [];
    } else {
      FeesAfter(cb, txs[..|txs| - 1]);
      assert ([cb] + txs)[..|txs|] == [cb] + txs[..|txs| - 1];
    }
  }

  predicate NoCoinbase(txs: seq<Tx>) { forall i :: 0 <= i < |txs| ==> !txs[i].Coinbase? }

  lemma StructureOf(cb: Tx, txs: seq<Tx>)
    requires cb.Coinbase?
    ensures CheckStructure([cb] + txs).Ok? <==> NoCoinbase(txs)
    ensures CheckStructure([cb] + txs).Ok? ==> CheckStructure([cb] + txs).value == cb
  {
    hide SecondCoinbase;
    var all := [cb] + txs;
    NoSecondCoinbase(all, |all|);
    assert forall i :: 0 <= i < |txs| ==> txs[i] == all[i + 1];
  }

  /** A template passes every check that needs no state exactly when the pool's records are
      transfers and announcements that are rightly signed, and reward and fees fit together. */
  lemma TemplatePasses(rules: Rules, enc: Encoder, height: U64, times: seq<nat>, pool: seq<Bytes>, to: Address,
                       note: Bytes,
                       t: Block)
    requires enc.Inverts(rules) && IsTemplate(rules, enc, height, times, pool, to, note, t) && |note| <= NOTE_MAX
    ensures var txs := PoolTxs(rules, pool).value;
            var cb := TemplateCoinbase(height, to, Fees(txs), note);
            CheckBody(rules, t.header, t.raw, Untrusted).Ok? <==>
            && NoCoinbase(txs) && CheckAuthorities(rules, Untrusted, [cb] + txs, |txs| + 1).None?
            && cb.reward + cb.fees <= MAX_U128
    ensures var txs := PoolTxs(rules, pool).value;
            var cb := TemplateCoinbase(height, to, Fees(txs), note);
            CheckBody(rules, t.header, t.raw, Untrusted).Ok? ==>
            CheckBody(rules, t.header, t.raw, Untrusted).value == Checked([enc.tx(cb).value] + pool, [cb] + txs)
  {
    hide DecodeFirst, CheckAuthorities, Fees, CheckStructure;
    var txs := PoolTxs(rules, pool).value;
    var cb := TemplateCoinbase(height, to, Fees(txs), note);
    var records, all := [enc.tx(cb).value] + pool, [cb] + txs;
    PoolDecodes(rules, pool);
    assert rules.decode(enc.tx(cb).value) == Some(cb);
    assert rules.parse(t.raw) == Some(records);
    forall i | 0 <= i < |all| ensures rules.decode(records[i]) == Some(all[i]) {
      if i > 0 {
        assert records[i] == pool[i - 1] && all[i] == txs[i - 1];
      }
    }
    DecodesAll(rules, records, all, |all|);
    assert all[..|all|] == all;
    FeesAfter(cb, txs);
    StructureOf(cb, txs);
  }

  // ----- against the accounts -----

  /** The pool's transactions applied in order at the tip, before any coinbase. */
  function ApplyList(rules: Rules, s: State, led: seq<Entry>, height: nat, txs: seq<Tx>, n: nat): Result<State, Reject>
    requires n <= |txs| && NoCoinbase(txs)
  {
    if n == 0 then Ok(s)
    else
      var r := ApplyList(rules, s, led, height, txs, n - 1);
      if r.Err? then r else ApplyTx(rules, r.value, led, height, txs[n - 1], n)
  }

  /** `t` is `s` with the coinbase credit added at one address. */
  ghost predicate Richer(s: State, t: State, to: Address, credit: nat) {
    && (forall a: Address :: a != to ==> Get(t, a) == Get(s, a))
    && Get(t, to).nonce == Get(s, to).nonce && Get(t, to).balance == Get(s, to).balance + credit
  }

  lemma {:induction false} BalanceBelowTotal(s: State, a: Address)
    ensures Get(s, a).balance <= Total(s)
  {
    if a in s {
      SumPick(s, s.Keys, a);
    }
  }

  lemma SpendableRicher(led: seq<Entry>, e: Entry, s: State, t: State, height: nat, a: Address)
    requires Richer(s, t, e.addr, e.credit) && !Mature(e.height, height)
    requires Covered(s, led, height)
    requires Immature(led, a, height) + e.credit <= MAX_U128
    ensures Spendable(led + [e], a, Get(t, a).balance, height) == Spendable(led, a, Get(s, a).balance, height)
  {
    assert (led + [e])[..|led|] == led;
    assert Get(s, a).balance >= Immature(led, a, height);
  }

  lemma RicherUpdate(s: State, t: State, to: Address, credit: nat, a: Address, x: Account, y: Account)
    requires Richer(s, t, to, credit)
    requires y.nonce == x.nonce && y.balance == x.balance + (if a == to then credit else 0)
    ensures Richer(s[a := x], t[a := y], to, credit)
  {
    var s1, t1 := s[a := x], t[a := y];
    forall b: Address | b != to ensures Get(t1, b) == Get(s1, b) {
      assert Get(t, b) == Get(s, b);
    }
  }

  lemma CreditRicher(s: State, t: State, to: Address, credit: nat, a: Address, amount: U128)
    requires Richer(s, t, to, credit) && Credited(s, a, amount).Ok?
    requires Get(s, a).balance + amount + credit <= MAX_U128
    ensures Credited(t, a, amount).Ok? && Richer(Credited(s, a, amount).value, Credited(t, a, amount).value, to, credit)
  {
    assert Get(t, a).balance <= Get(s, a).balance + credit;
    RicherUpdate(s, t, to, credit, a, Account(Get(s, a).balance + amount, Get(s, a).nonce),
                 Account(Get(t, a).balance + amount, Get(t, a).nonce));
  }

  /** One transaction does the same with the coinbase credited, entered and unripe. */
  lemma TxRicher(rules: Rules, s: State, t: State, led: seq<Entry>, e: Entry, height: nat, tx: Tx, i: nat)
    requires !tx.Coinbase? && ApplyTx(rules, s, led, height, tx, i).Ok?
    requires Richer(s, t, e.addr, e.credit) && !Mature(e.height, height) && Covered(s, led, height)
    requires Total(s) + e.credit <= MAX_U128
    ensures ApplyTx(rules, t, led + [e], height, tx, i).Ok?
    ensures Richer(ApplyTx(rules, s, led, height, tx, i).value, ApplyTx(rules, t, led + [e], height, tx, i).value,
                   e.addr, e.credit)
  {
    hide Spendable, Immature, Total, Richer, Covered, Credited, Get;
    var from := rules.From(tx);
    SenderFacts(s, t, led, e, height, from);
    var x, y := Get(s, from), Get(t, from);
    var out := tx.fee + if tx.Transfer? then tx.amount else 0;
    var x1, y1 := Account(x.balance - out, x.nonce + 1), Account(y.balance - out, y.nonce + 1);
    RicherUpdate(s, t, e.addr, e.credit, from, x1, y1);
    if tx.Transfer? {
      TxConserves(rules, s, led, height, tx, i);
      CreditFits(s[from := x1], tx.to, tx.amount, e.credit);
      CreditRicher(s[from := x1], t[from := y1], e.addr, e.credit, tx.to, tx.amount);
    }
  }

  lemma SenderFacts(s: State, t: State, led: seq<Entry>, e: Entry, height: nat, from: Address)
    requires Richer(s, t, e.addr, e.credit) && !Mature(e.height, height) && Covered(s, led, height)
    requires Total(s) + e.credit <= MAX_U128
    ensures Spendable(led + [e], from, Get(t, from).balance, height) ==
            Spendable(led, from, Get(s, from).balance, height)
    ensures Get(t, from).nonce == Get(s, from).nonce
    ensures Get(t, from).balance == Get(s, from).balance + (if from == e.addr then e.credit else 0)
  {
    hide Spendable, Immature, Total;
    assert Get(s, from).balance >= Immature(led, from, height);
    BalanceBelowTotal(s, from);
    SpendableRicher(led, e, s, t, height, from);
  }

  lemma CreditFits(s: State, a: Address, amount: U128, credit: nat)
    requires Credited(s, a, amount).Ok? && Total(Credited(s, a, amount).value) + credit <= MAX_U128
    ensures Get(s, a).balance + amount + credit <= MAX_U128
  {
    hide Total;
    BalanceBelowTotal(Credited(s, a, amount).value, a);
  }

  lemma {:induction false} ListThenBlock(rules: Rules, s: State, led: seq<Entry>, height: nat, body: Checked, n: nat)
    requires body.Valid() && n < |body.txs| && NoCoinbase(body.txs[1..])
    requires ApplyList(rules, s, led, height, body.txs[1..], n).Ok?
    requires Covered(s, led, height) && Total(s) + body.Credit() <= MAX_U128
    ensures var r := ApplyFirst(rules, s, WithCoinbase(led, height, body), height, body, n + 1);
            var l := ApplyList(rules, s, led, height, body.txs[1..], n).value;
            && r.Ok? && Richer(l, r.value, body.Cb().to, body.Credit())
            && Covered(l, led, height) && Total(l) <= Total(s)
  {
    hide Total, ApplyTx, Covered, Immature;
    var e := Entry(height, body.Cb().to, body.Credit());
    if n == 0 {
      BalanceBelowTotal(s, e.addr);
    } else {
      ListThenBlock(rules, s, led, height, body, n - 1);
      var l := ApplyList(rules, s, led, height, body.txs[1..], n - 1).value;
      var r := ApplyFirst(rules, s, WithCoinbase(led, height, body), height, body, n).value;
      var tx := body.txs[n];
      assert body.txs[1..][n - 1] == tx;
      TxCovered(rules, l, led, height, tx, n);
      TxConserves(rules, l, led, height, tx, n);
      TxRicher(rules, l, r, led, e, height, tx, n);
    }
  }

  /** So a template whose pool applies in order at the tip is accepted whole: its own coinbase
      changes no transaction's fate. */
  lemma TemplateAccepted(rules: Rules, enc: Encoder, c: Chain, times: seq<nat>, pool: seq<Bytes>, to: Address,
                         note: Bytes,
                         t: Block)
    requires enc.Inverts(rules) && |note| <= NOTE_MAX
    requires IsTemplate(rules, enc, t.header.height, times, pool, to, note, t)
    requires var txs := PoolTxs(rules, pool).value;
             var cb := TemplateCoinbase(t.header.height, to, Fees(txs), note);
             && NoCoinbase(txs) && CheckAuthorities(rules, Untrusted, [cb] + txs, |txs| + 1).None?
             && ApplyList(rules, c.accounts, c.led, t.header.height, txs, |txs|).Ok?
             && Total(c.accounts) + cb.reward + cb.fees <= MAX_U128
    requires Covered(c.accounts, c.led, t.header.height)
    ensures ApplyBlock(rules, c, t, Untrusted).Ok?
  {
    hide Total, ApplyFirst, CheckBody, Covered, CheckAuthorities, Fees, PoolTxs, ApplyTx;
    var txs := PoolTxs(rules, pool).value;
    var cb := TemplateCoinbase(t.header.height, to, Fees(txs), note);
    TemplatePasses(rules, enc, t.header.height, times, pool, to, note, t);
    CheckedIsValid(rules, t.header, t.raw, Untrusted);
    var body := CheckBody(rules, t.header, t.raw, Untrusted).value;
    assert body.txs == [cb] + txs && body.txs[1..] == txs;
    ListThenBlock(rules, c.accounts, c.led, t.header.height, body, |txs|);
  }
}
