/** Round-robin drawing from the buckets of the seed names. */
module Interleave {

  /** The draws of one round from the first n buckets: (round, bucket). */
  function Round<T>(buckets: seq<seq<T>>, r: nat, n: nat): seq<(nat, nat)>
    requires n <= |buckets|
  {
    if n == 0 then []
    else Round(buckets, r, n - 1) + if r < |buckets[n - 1]| then [(r, n - 1)] else []
  }

  /** All draws of the rounds before r and of round r from the first m buckets. */
  function Upto<T>(buckets: seq<seq<T>>, r: nat, m: nat): seq<(nat, nat)>
    requires m <= |buckets|
    decreases r
  {
    (if r == 0 then [] else Upto(buckets, r - 1, |buckets|)) + Round(buckets, r, m)
  }

  function Longest<T>(buckets: seq<seq<T>>): (n: nat)
    ensures forall b :: 0 <= b < |buckets| ==> |buckets[b]| <= n
  {
    if buckets == [] then 0
    else
      var n := Longest(buckets[..|buckets| - 1]);
      if |buckets[|buckets| - 1]| > n then |buckets[|buckets| - 1]| else n
  }

  /** Every draw there is, in (round, bucket) order. */
  function Draws<T>(buckets: seq<seq<T>>): seq<(nat, nat)> { Upto(buckets, Longest(buckets), 0) }

  predicate IsDraw<T>(buckets: seq<seq<T>>, d: (nat, nat)) { d.1 < |buckets| && d.0 < |buckets[d.1]| }

  predicate Before(d: (nat, nat), e: (nat, nat)) { d.0 < e.0 || (d.0 == e.0 && d.1 < e.1) }

  lemma UptoStep<T>(buckets: seq<seq<T>>, r: nat, m: nat)
    requires 1 <= m <= |buckets|
    ensures Upto(buckets, r, m) == Upto(buckets, r, m - 1) + if r < |buckets[m - 1]| then [(r, m - 1)] else []
  {
  }

  lemma UptoRound<T>(buckets: seq<seq<T>>, r: nat)
    requires r > 0
    ensures Upto(buckets, r, 0) == Upto(buckets, r - 1, |buckets|)
  {
    assert Round(buckets, r, 0) == [];
  }

  lemma UptoNone<T>(buckets: seq<seq<T>>)
    ensures Upto(buckets, 0, 0) == []
  {
  }

  /** Exactly the draws before (r, m), in strictly rising order. */
  lemma {:induction false} UptoIs<T>(buckets: seq<seq<T>>, r: nat, m: nat)
    requires m <= |buckets|
    ensures var u := Upto(buckets, r, m);
            && (forall d: (nat, nat) :: d in u <==> IsDraw(buckets, d) && Before(d, (r, m)))
            && (forall i, j :: 0 <= i < j < |u| ==> Before(u[i], u[j]))
    decreases r, m
  {
    hide Upto;
    if m > 0 {
      UptoIs(buckets, r, m - 1);
      UptoStep(buckets, r, m);
      var u := Upto(buckets, r, m - 1);
      assert forall i :: 0 <= i < |u| ==> u[i] in u;
    } else if r > 0 {
      UptoIs(buckets, r - 1, |buckets|);
      UptoRound(buckets, r);
    } else {
      UptoNone(buckets);
    }
  }

  /** The draws are exactly the items of the buckets, each once, round by round. */
  lemma DrawsAre<T>(buckets: seq<seq<T>>)
    ensures var u := Draws(buckets);
            && (forall d: (nat, nat) :: d in u <==> IsDraw(buckets, d))
            && (forall i, j :: 0 <= i < j < |u| ==> Before(u[i], u[j]))
  {
    hide Upto;
    UptoIs(buckets, Longest(buckets), 0);
    var u := Draws(buckets);
    forall d: (nat, nat) ensures d in u <==> IsDraw(buckets, d) {
      assert IsDraw(buckets, d) ==> |buckets[d.1]| <= Longest(buckets);
      assert d in u <==> IsDraw(buckets, d) && Before(d, (Longest(buckets), 0));
    }
  }

  /** Later cuts extend earlier ones. */
  lemma {:induction false} UptoGrows<T>(buckets: seq<seq<T>>, r: nat, m: nat, r2: nat, m2: nat)
    requires m <= |buckets| && m2 <= |buckets| && (r < r2 || (r == r2 && m <= m2))
    ensures Upto(buckets, r, m) <= Upto(buckets, r2, m2)
    decreases r2, m2
  {
    hide Upto;
    if (r, m) != (r2, m2) {
      if m2 > 0 {
        UptoGrows(buckets, r, m, r2, m2 - 1);
        UptoStep(buckets, r2, m2);
      } else {
        UptoGrows(buckets, r, m, r2 - 1, |buckets|);
        UptoRound(buckets, r2);
      }
    }
  }

  /** Past the longest bucket nothing is drawn. */
  lemma {:induction false} RoundEmpty<T>(buckets: seq<seq<T>>, r: nat, m: nat)
    requires m <= |buckets| && (forall b :: 0 <= b < m ==> |buckets[b]| <= r)
    ensures Round(buckets, r, m) == []
  {
    if m > 0 {
      RoundEmpty(buckets, r, m - 1);
    }
  }

  lemma {:induction false} UptoWithin<T>(buckets: seq<seq<T>>, r: nat, m: nat)
    requires m <= |buckets|
    ensures Upto(buckets, r, m) <= Draws(buckets)
    decreases r, m
  {
    hide Round;
    if r < Longest(buckets) {
      UptoGrows(buckets, r, m, Longest(buckets), 0);
    } else {
      RoundEmpty(buckets, r, m);
      if r > Longest(buckets) {
        UptoWithin(buckets, r - 1, |buckets|);
      } else {
        RoundEmpty(buckets, r, 0);
      }
    }
  }

  /** Any prefix of the draws is a cut at some (round, bucket). */
  lemma {:induction false} PrefixIsCut<T>(buckets: seq<seq<T>>, r: nat, m: nat, n: nat) returns (r2: nat, m2: nat)
    requires m <= |buckets| && n <= |Upto(buckets, r, m)|
    ensures m2 <= |buckets| && Upto(buckets, r, m)[..n] == Upto(buckets, r2, m2)
    decreases r, m
  {
    hide Upto;
    if n == |Upto(buckets, r, m)| {
      r2, m2 := r, m;
    } else if m > 0 {
      UptoStep(buckets, r, m);
      r2, m2 := PrefixIsCut(buckets, r, m - 1, n);
    } else if r > 0 {
      UptoRound(buckets, r);
      r2, m2 := PrefixIsCut(buckets, r - 1, |buckets|, n);
    } else {
      UptoNone(buckets);
      assert false;
    }
  }

  /** How many draws came from bucket b. */
  function Taken(ds: seq<(nat, nat)>, b: nat): nat {
    if ds == [] then 0 else Taken(ds[..|ds| - 1], b) + if ds[|ds| - 1].1 == b then 1 else 0
  }

  lemma TakenSnoc(ds: seq<(nat, nat)>, d: (nat, nat), b: nat)
    ensures Taken(ds + [d], b) == Taken(ds, b) + if d.1 == b then 1 else 0
  {
    assert (ds + [d])[..|ds|] == ds;
  }

  function Min(a: nat, b: nat): nat { if a < b then a else b }

  /** A cut at (r, m) has taken r items from every bucket, one more from the first m, as far
      as they go. */
  lemma {:induction false} TakenIs<T>(buckets: seq<seq<T>>, r: nat, m: nat, b: nat)
    requires m <= |buckets| && b < |buckets|
    ensures Taken(Upto(buckets, r, m), b) == Min(|buckets[b]|, if b < m then r + 1 else r)
    decreases r, m
  {
    hide Upto, Taken;
    if m > 0 {
      TakenIs(buckets, r, m - 1, b);
      UptoStep(buckets, r, m);
      TakenSnoc(Upto(buckets, r, m - 1), (r, m - 1), b);
      assert Upto(buckets, r, m - 1) + [] == Upto(buckets, r, m - 1);
    } else if r > 0 {
      TakenIs(buckets, r - 1, |buckets|, b);
      UptoRound(buckets, r);
    } else {
      UptoNone(buckets);
      TakenNone(b);
    }
  }

  lemma TakenNone(b: nat)
    ensures Taken([], b) == 0
  {
  }

  /** However many items are kept, no bucket gets two more than one that still has items. */
  lemma Fair<T>(buckets: seq<seq<T>>, n: nat, i: nat, j: nat)
    requires n <= |Draws(buckets)| && i < |buckets| && j < |buckets|
    requires Taken(Draws(buckets)[..n], i) < |buckets[i]|
    ensures Taken(Draws(buckets)[..n], j) <= Taken(Draws(buckets)[..n], i) + 1
  {
    hide Upto, Taken;
    var r, m := PrefixIsCut(buckets, Longest(buckets), 0, n);
    TakenIs(buckets, r, m, i);
    TakenIs(buckets, r, m, j);
  }

  function Drawn<T>(buckets: seq<seq<T>>, ds: seq<(nat, nat)>): (r: seq<T>)
    requires forall i :: 0 <= i < |ds| ==> IsDraw(buckets, ds[i])
    ensures |r| == |ds|
  {
    seq(|ds|, i requires 0 <= i < |ds| && IsDraw(buckets, ds[i]) => buckets[ds[i].1][ds[i].0])
  }

  /** The items of the first draws, as many as fit. */
  function Interleaved<T>(buckets: seq<seq<T>>, cap: nat): seq<T> {
    DrawsAre(buckets);
    var u := Draws(buckets)[..Min(cap, |Draws(buckets)|)];
    assert forall i :: 0 <= i < |u| ==> u[i] in Draws(buckets);
    Drawn(buckets, u)
  }

  /** Either still filling, with every draw so far kept, or full. */
  ghost predicate Filling<T>(buckets: seq<seq<T>>, cap: nat, r: nat, m: nat, out: seq<T>)
    requires m <= |buckets|
  {
    var u := Upto(buckets, r, m);
    |out| == Min(cap, |u|) && forall i :: 0 <= i < |out| ==> IsDraw(buckets, u[i]) && out[i] == buckets[u[i].1][u[i].0]
  }

  lemma FillStep<T>(buckets: seq<seq<T>>, cap: nat, r: nat, m: nat, out: seq<T>)
    requires m < |buckets| && Filling(buckets, cap, r, m, out)
    ensures var next := if r < |buckets[m]| && |out| < cap then out + [buckets[m][r]] else out;
            Filling(buckets, cap, r, m + 1, next)
  {
    hide Upto;
    UptoStep(buckets, r, m + 1);
  }

  /** At the cap, or with nothing left to draw, this is the answer. */
  lemma FilledIs<T>(buckets: seq<seq<T>>, cap: nat, r: nat, out: seq<T>)
    requires Filling(buckets, cap, r, |buckets|, out)
    requires |out| >= cap || forall b :: 0 <= b < |buckets| ==> |buckets[b]| <= r
    ensures out == Interleaved(buckets, cap)
  {
    hide Upto;
    UptoWithin(buckets, r, |buckets|);
    DrawsAre(buckets);
    if |out| < cap {
      AllDrawn(buckets, r);
    }
    assert out == Interleaved(buckets, cap);
  }

  lemma AllDrawn<T>(buckets: seq<seq<T>>, r: nat)
    requires forall b :: 0 <= b < |buckets| ==> |buckets[b]| <= r
    ensures |Upto(buckets, r, |buckets|)| >= |Draws(buckets)|
  {
    hide Upto;
    LongestLeast(buckets, r);
    UptoGrows(buckets, Longest(buckets), 0, r, |buckets|);
  }

  lemma {:induction false} LongestLeast<T>(buckets: seq<seq<T>>, r: nat)
    requires forall b :: 0 <= b < |buckets| ==> |buckets[b]| <= r
    ensures Longest(buckets) <= r
  {
    if buckets != [] {
      LongestLeast(buckets[..|buckets| - 1], r);
    }
  }

  /** Draw from every bucket before taking a second item from any; stop at the cap. */
  method DoInterleave<T>(buckets: seq<seq<T>>, cap: nat) returns (out: seq<T>)
    ensures out == Interleaved(buckets, cap)
  {
    hide Upto, Interleaved, Filling;
    out := [];
    var round := 0;
    FillStart<T>(buckets, cap);
    while true
      invariant Filling(buckets, cap, round, 0, out)
      decreases Longest(buckets) + 1 - round
    {
      var moved := false;
      for b := 0 to |buckets|
        invariant Filling(buckets, cap, round, b, out)
        invariant moved <==> exists k :: 0 <= k < b && round < |buckets[k]|
      {
        FillStep(buckets, cap, round, b, out);
        if round < |buckets[b]| {
          moved := true;
          if |out| < cap {
            out := out + [buckets[b][round]];
          }
        }
      }
      if !moved || |out| >= cap {
        FilledIs(buckets, cap, round, out);
        break;
      }
      FillRound(buckets, cap, round, out);
      round := round + 1;
    }
  }

  lemma FillStart<T>(buckets: seq<seq<T>>, cap: nat)
    ensures Filling(buckets, cap, 0, 0, [])
  {
  }

  lemma FillRound<T>(buckets: seq<seq<T>>, cap: nat, r: nat, out: seq<T>)
    requires Filling(buckets, cap, r, |buckets|, out)
    ensures Filling(buckets, cap, r + 1, 0, out)
  {
    hide Upto;
    UptoRound(buckets, r + 1);
  }

  // ----- distinct items -----

  /** No item twice, within a bucket or across buckets. */
  ghost predicate Apart<T>(buckets: seq<seq<T>>) {
    forall d: (nat, nat), e: (nat, nat) :: IsDraw(buckets, d) && IsDraw(buckets, e) && d != e ==>
      buckets[d.1][d.0] != buckets[e.1][e.0]
  }

  ghost predicate Distinct<T>(s: seq<T>) { forall i, j :: 0 <= i < j < |s| ==> s[i] != s[j] }

  lemma InterleavedDistinct<T>(buckets: seq<seq<T>>, cap: nat)
    requires Apart(buckets)
    ensures Distinct(Interleaved(buckets, cap)) && |Interleaved(buckets, cap)| <= cap
  {
    hide Draws;
    DrawsAre(buckets);
    var u, s := Draws(buckets), Interleaved(buckets, cap);
    forall i, j | 0 <= i < j < |s| ensures s[i] != s[j] {
      assert u[i] in u && u[j] in u && Before(u[i], u[j]);
    }
  }

  lemma InterleavedFrom<T>(buckets: seq<seq<T>>, cap: nat, x: T)
    requires x in Interleaved(buckets, cap)
    ensures exists b :: 0 <= b < |buckets| && x in buckets[b]
  {
    hide Draws;
    DrawsAre(buckets);
    var u, s := Draws(buckets), Interleaved(buckets, cap);
    var i :| 0 <= i < |s| && s[i] == x;
    assert u[i] in u;
    assert x in buckets[u[i].1];
  }
}
