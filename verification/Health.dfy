/** The stall clocks: what the node reports of itself, over every history of heartbeats. */
module Health {
  import opened Wrappers
  import opened Text

  const MAX_U64: nat := 0xFFFF_FFFF_FFFF_FFFF

  const STALL_AFTER: nat := 180

  const QUIET_AFTER: nat := 480

  datatype Branch = OnBest | NeedBodies(best: nat, tip: nat) | Stranded | Adoptable

  datatype Status = Starting | Syncing | Synced | Stalled

  datatype Reason = NoReason | NoPeers | StrandedBranch | RepairStuck | TransportStranded | NoClaims | NotMoving
    | GapStands | BodiesMissing | Quiet | PeersStopped

  datatype Verdict = Verdict(status: Status, reason: Reason)

  datatype Observation = Observation(started: bool, peers: nat, branch: Option<Branch>, repairStuck: bool,
                                     stranded: bool, best: Option<nat>, height: nat, idle: nat, gapIdle: nat,
                                     peerIdle: nat)

  function SatSub(a: nat, b: nat): nat { if a < b then 0 else a - b }

  /** The verdict, by arms in order of the evidence they carry. */
  function Assess(o: Observation): Verdict {
    if !o.started then Verdict(Starting, NoReason)
    else if o.peers == 0 then Verdict(Stalled, NoPeers)
    else if o.branch == Some(Stranded) then Verdict(Stalled, StrandedBranch)
    else if o.repairStuck then Verdict(Stalled, RepairStuck)
    else if o.stranded then Verdict(Stalled, TransportStranded)
    else if o.best.None? then Verdict(Stalled, NoClaims)
    else if SatSub(o.best.value, o.height) > 1 then
      if o.idle >= STALL_AFTER then Verdict(Stalled, NotMoving)
      else if o.gapIdle >= STALL_AFTER then Verdict(Stalled, GapStands)
      else Verdict(Syncing, NoReason)
    else if o.branch.Some? && o.branch.value.NeedBodies? && o.branch.value.best > o.branch.value.tip
            && o.idle >= STALL_AFTER then
      Verdict(Stalled, BodiesMissing)
    else if o.idle >= QUIET_AFTER then Verdict(Stalled, Quiet)
    else if o.idle < STALL_AFTER && o.peerIdle >= STALL_AFTER then Verdict(Stalled, PeersStopped)
    else Verdict(Synced, NoReason)
  }

  // ----- the tracker -----

  datatype Clock = Clock(lastHeight: nat, lastChangeAt: nat, windowAt: nat, windowHeight: nat, bestGap: nat,
                         bestGapAt: nat, bestClaim: nat, bestClaimAt: nat) {
    function NoteHeight(height: nat, now: nat): Clock {
      if height != lastHeight then this.(lastHeight := height, lastChangeAt := now) else this
    }

    function ObserveWindow(height: nat, now: nat): Clock {
      if SatSub(now, windowAt) >= 30 then this.(windowAt := now, windowHeight := height) else this
    }

    function ObserveGap(behind: nat, now: nat): Clock {
      if behind <= 1 || behind < bestGap then this.(bestGap := behind, bestGapAt := now) else this
    }

    function ObserveClaim(top: nat, now: nat): Clock {
      if top > bestClaim then this.(bestClaim := top, bestClaimAt := now) else this
    }
  }

  /** A new tracker: no gap seen, no claim heard. */
  function NewClock(height: nat, now: nat): Clock { Clock(height, now, now, height, MAX_U64, now, 0, now) }

  /** The heartbeat starts its tracker at height zero and time zero. */
  const FRESH := NewClock(0, 0)

  /** Between beats the height alone is noted; a beat reads everything. */
  datatype Event =
    | Tick(now: nat, height: nat)

    | Beat(now: nat, height: nat, peers: nat, backed: nat, claim: nat, branch: Option<Branch>, repairStuck: bool,
           stranded: bool)

  function BestKnown(peers: nat, backed: nat, ours: nat): Option<nat> {
    if peers > 0 then Some(if backed > ours then backed else ours) else None
  }

  /** The gap a beat observes. */
  function Gap(e: Event): Option<nat> {
    if e.Beat? && e.peers > 0 then Some(SatSub(BestKnown(e.peers, e.backed, e.height).value, e.height)) else None
  }

  /** The clock when the beat takes its observation. */
  function Seen(c: Clock, e: Event): Clock {
    match e
    case Tick(now, height) => c.NoteHeight(height, now)
    case Beat(now, height, peers, backed, claim, _, _, _) =>
      var c1 := if Gap(e).Some? then c.ObserveGap(Gap(e).value, now) else c;
      c1.ObserveClaim(claim, now).NoteHeight(height, now)
  }

  function After(c: Clock, e: Event): Clock {
    var s := Seen(c, e);
    if e.Beat? then s.NoteHeight(e.height, e.now).ObserveWindow(e.height, e.now) else s
  }

  function Observed(c: Clock, e: Event): Observation
    requires e.Beat?
  {
    var s := Seen(c, e);
    Observation(true, e.peers, e.branch, e.repairStuck, e.stranded, BestKnown(e.peers, e.backed, e.height), e.height,
                SatSub(e.now, s.lastChangeAt), SatSub(e.now, s.bestGapAt), SatSub(e.now, s.bestClaimAt))
  }

  class Tracker {
    var c: Clock

    constructor (height: nat, now: nat)
      ensures c == NewClock(height, now)
    {
      c := Clock(height, now, now, height, MAX_U64, now, 0, now);
    }

    method NoteHeight(height: nat, now: nat)
      modifies this
      ensures c == old(c).NoteHeight(height, now)
    {
      if height != c.lastHeight {
        c := c.(lastHeight := height, lastChangeAt := now);
      }
    }

    method Observe(height: nat, now: nat)
      modifies this
      ensures c == old(c).NoteHeight(height, now).ObserveWindow(height, now)
    {
      NoteHeight(height, now);
      if SatSub(now, c.windowAt) >= 30 {
        c := c.(windowAt := now, windowHeight := height);
      }
    }

    method ObserveGap(behind: nat, now: nat)
      modifies this
      ensures c == old(c).ObserveGap(behind, now)
    {
      if behind <= 1 || behind < c.bestGap {
        c := c.(bestGap := behind, bestGapAt := now);
      }
    }

    method ObserveTopClaim(top: nat, now: nat)
      modifies this
      ensures c == old(c).ObserveClaim(top, now)
    {
      if top > c.bestClaim {
        c := c.(bestClaim := top, bestClaimAt := now);
      }
    }

    /** One heartbeat: feed the clocks, observe, judge. */
    method DoBeat(e: Event) returns (v: Verdict)
      requires e.Beat?
      modifies this
      ensures c == After(old(c), e) && v == Assess(Observed(old(c), e))
    {
      var best := BestKnown(e.peers, e.backed, e.height);
      if best.Some? {
        ObserveGap(SatSub(best.value, e.height), e.now);
      }
      ObserveTopClaim(e.claim, e.now);
      NoteHeight(e.height, e.now);
      var o := Observation(true, e.peers, e.branch, e.repairStuck, e.stranded, best, e.height,
                           SatSub(e.now, c.lastChangeAt), SatSub(e.now, c.bestGapAt), SatSub(e.now, c.bestClaimAt));
      Observe(e.height, e.now);
      v := Assess(o);
    }
  }

  // ----- whole histories -----

  function Reached(es: seq<Event>, n: nat): Clock
    requires n <= |es|
  {
    if n == 0 then FRESH else After(Reached(es, n - 1), es[n - 1])
  }

  function VerdictAt(es: seq<Event>, n: nat): Verdict
    requires n < |es| && es[n].Beat?
  {
    Assess(Observed(Reached(es, n), es[n]))
  }

  /** Time does not run backwards and gaps fit the machine word. */
  ghost predicate Timely(es: seq<Event>) {
    && (forall i, j :: 0 <= i < j < |es| ==> es[i].now <= es[j].now)
    && (forall i :: 0 <= i < |es| && Gap(es[i]).Some? ==> Gap(es[i]).value <= MAX_U64)
  }

  /** The beat finds the node level, or closer than at any beat before it. */
  ghost predicate Closer(es: seq<Event>, i: nat)
    requires i < |es|
  {
    Gap(es[i]).Some? && var g := Gap(es[i]).value;
    g <= 1 || (g < MAX_U64 && forall j :: 0 <= j < i && Gap(es[j]).Some? ==> g < Gap(es[j]).value)
  }

  /** When the node was last level or closer than ever, among the first n events. */
  ghost function LastCloser(es: seq<Event>, n: nat): nat
    requires n <= |es|
  {
    if n == 0 then 0 else if Closer(es, n - 1) then es[n - 1].now else LastCloser(es, n - 1)
  }

  /** When the height was last seen to change, among the first n events. */
  function LastMove(es: seq<Event>, n: nat): nat
    requires n <= |es|
  {
    if n == 0 then 0
    else if es[n - 1].height != (if n == 1 then 0 else es[n - 2].height) then es[n - 1].now
    else LastMove(es, n - 1)
  }

  /** What the best gap stands for: a lower bound of the gaps seen, until the node is level. */
  ghost predicate Tracks(c: Clock, es: seq<Event>, n: nat)
    requires n <= |es|
  {
    && (forall j :: 0 <= j < n && Gap(es[j]).Some? ==> c.bestGap <= Gap(es[j]).value || c.bestGap <= 1)
    && c.bestGap <= MAX_U64
    && (c.bestGap == MAX_U64 || exists j :: 0 <= j < n && Gap(es[j]) == Some(c.bestGap))
  }

  /** The code's test for restarting the clock is the one about the whole history. */
  lemma RearmsIff(c: Clock, es: seq<Event>, n: nat)
    requires n < |es| && Timely(es) && Tracks(c, es, n) && Gap(es[n]).Some?
    ensures var g := Gap(es[n]).value; (g <= 1 || g < c.bestGap) <==> Closer(es, n)
    ensures Tracks(c.ObserveGap(Gap(es[n]).value, es[n].now), es, n + 1)
  {
    hide Gap;
    var g := Gap(es[n]).value;
    if 1 < g < c.bestGap {
      forall j | 0 <= j < n && Gap(es[j]).Some? ensures g < Gap(es[j]).value {
        assert c.bestGap <= Gap(es[j]).value;
      }
    }
  }

  lemma ObserveGapOnly(c: Clock, e: Event)
    ensures After(c, e).bestGap == (if Gap(e).Some? then c.ObserveGap(Gap(e).value, e.now) else c).bestGap
    ensures After(c, e).bestGapAt == (if Gap(e).Some? then c.ObserveGap(Gap(e).value, e.now) else c).bestGapAt
    ensures Seen(c, e).bestGapAt == After(c, e).bestGapAt
    ensures After(c, e).lastHeight == e.height && Seen(c, e).lastChangeAt == After(c, e).lastChangeAt
    ensures After(c, e).lastChangeAt == if e.height != c.lastHeight then e.now else c.lastChangeAt
  {
  }

  /** The two clocks show the last time of being level or closer than ever, and the last move. */
  lemma {:induction false} ClocksAre(es: seq<Event>, n: nat)
    requires n <= |es| && Timely(es)
    ensures var c := Reached(es, n);
            && Tracks(c, es, n) && c.bestGapAt == LastCloser(es, n) && c.lastChangeAt == LastMove(es, n)
            && c.lastHeight == (if n == 0 then 0 else es[n - 1].height)
  {
    hide After, Gap, Tracks, Closer;
    if n == 0 {
      FreshTracks(es);
    } else {
      ClocksAre(es, n - 1);
      var c := Reached(es, n - 1);
      ObserveGapOnly(c, es[n - 1]);
      if Gap(es[n - 1]).Some? {
        RearmsIff(c, es, n - 1);
        SameTracks(c.ObserveGap(Gap(es[n - 1]).value, es[n - 1].now), Reached(es, n), es, n);
      } else {
        NoGap(c, es, n - 1);
        SameTracks(c, Reached(es, n), es, n);
      }
    }
  }

  lemma FreshTracks(es: seq<Event>)
    ensures Tracks(FRESH, es, 0)
  {
  }

  lemma SameTracks(c: Clock, d: Clock, es: seq<Event>, n: nat)
    requires n <= |es| && Tracks(c, es, n) && c.bestGap == d.bestGap
    ensures Tracks(d, es, n)
  {
    hide Gap;
  }

  lemma NoGap(c: Clock, es: seq<Event>, n: nat)
    requires n < |es| && Tracks(c, es, n) && Gap(es[n]).None?
    ensures Tracks(c, es, n + 1) && !Closer(es, n)
  {
    hide Gap;
  }

  /** Nothing that outranks the clocks. */
  predicate Undisturbed(e: Event) {
    e.Beat? && e.peers > 0 && e.branch != Some(Stranded) && !e.repairStuck && !e.stranded
  }

  /** More than one block behind, the node reports Stalled exactly when its height has not moved
      for the threshold, or when it has not been level or closer than ever for it, however much
      the height moves; and Syncing otherwise. */
  lemma BehindIsStalled(es: seq<Event>, n: nat)
    requires n < |es| && Timely(es) && Undisturbed(es[n]) && Gap(es[n]).value > 1
    ensures var now := es[n].now;
            VerdictAt(es, n).status ==
            if SatSub(now, LastMove(es, n + 1)) >= STALL_AFTER || SatSub(now, LastCloser(es, n + 1)) >= STALL_AFTER
            then Stalled else Syncing
  {
    hide LastMove, LastCloser, LastHigher, Timely, Observed, Reached;
    WhatIsSeen(es, n);
  }

  /** In terms of the beats themselves. */
  lemma {:induction false} LastCloserIs(es: seq<Event>, n: nat, since: nat)
    requires n <= |es| && Timely(es)
    ensures LastCloser(es, n) > since <==> exists i :: 0 <= i < n && Closer(es, i) && es[i].now > since
  {
    hide Closer, Gap;
    if n > 0 {
      LastCloserIs(es, n - 1, since);
      if Closer(es, n - 1) && LastCloser(es, n - 1) > since {
        var i :| 0 <= i < n - 1 && Closer(es, i) && es[i].now > since;
        assert es[i].now <= es[n - 1].now;
      }
    }
  }

  /** The promise of the gap clock: a node more than one block behind that set no new low for
      the threshold is Stalled, even if its height moves at every beat, and whatever else is
      wrong with it. */
  lemma NoNewLowIsStalled(es: seq<Event>, n: nat)
    requires n < |es| && Timely(es) && Gap(es[n]).Some? && Gap(es[n]).value > 1
    requires es[n].now >= STALL_AFTER
    requires forall i :: 0 <= i <= n && Closer(es, i) ==> es[i].now + STALL_AFTER <= es[n].now
    ensures VerdictAt(es, n).status == Stalled
  {
    hide LastMove, LastCloser, Closer;
    if Undisturbed(es[n]) {
      BehindIsStalled(es, n);
      LastCloserIs(es, n + 1, es[n].now - STALL_AFTER);
    }
  }

  // ----- level -----

  /** The beat hears a claim above every claim before it. */
  ghost predicate Higher(es: seq<Event>, i: nat)
    requires i < |es|
  {
    es[i].Beat? && es[i].claim > 0 && forall j :: 0 <= j < i && es[j].Beat? ==> es[j].claim < es[i].claim
  }

  /** When the highest claim last rose, among the first n events. */
  ghost function LastHigher(es: seq<Event>, n: nat): nat
    requires n <= |es|
  {
    if n == 0 then 0 else if Higher(es, n - 1) then es[n - 1].now else LastHigher(es, n - 1)
  }

  /** The best claim is the greatest heard. */
  ghost predicate Hears(c: Clock, es: seq<Event>, n: nat)
    requires n <= |es|
  {
    && (forall j :: 0 <= j < n && es[j].Beat? ==> es[j].claim <= c.bestClaim)
    && (c.bestClaim == 0 || exists j :: 0 <= j < n && es[j].Beat? && es[j].claim == c.bestClaim)
  }

  lemma ClaimOnly(c: Clock, e: Event)
    ensures After(c, e).bestClaim == Seen(c, e).bestClaim == if e.Beat? && e.claim > c.bestClaim then e.claim
                                                             else c.bestClaim
    ensures After(c, e).bestClaimAt == Seen(c, e).bestClaimAt == if e.Beat? && e.claim > c.bestClaim then e.now
                                                                 else c.bestClaimAt
  {
  }

  lemma {:induction false} ClaimClock(es: seq<Event>, n: nat)
    requires n <= |es|
    ensures Hears(Reached(es, n), es, n) && Reached(es, n).bestClaimAt == LastHigher(es, n)
  {
    hide After;
    if n > 0 {
      ClaimClock(es, n - 1);
      var c, e := Reached(es, n - 1), es[n - 1];
      ClaimOnly(c, e);
      assert Higher(es, n - 1) <==> e.Beat? && e.claim > c.bestClaim;
    }
  }

  /** Level with the network, the node reports Synced unless bodies are missing and it has not
      moved for the short threshold, or it has not moved for the long one, or it moves while no
      peer's claim has risen; and Stalled then. */
  lemma LevelIsSynced(es: seq<Event>, n: nat)
    requires n < |es| && Timely(es) && Undisturbed(es[n]) && Gap(es[n]).value <= 1
    ensures var e := es[n];
            var idle, deaf := SatSub(e.now, LastMove(es, n + 1)), SatSub(e.now, LastHigher(es, n + 1));
            VerdictAt(es, n).status ==
            if (e.branch.Some? && e.branch.value.NeedBodies? && e.branch.value.best > e.branch.value.tip
                && idle >= STALL_AFTER)
               || idle >= QUIET_AFTER || (idle < STALL_AFTER && deaf >= STALL_AFTER)
            then Stalled else Synced
  {
    hide LastMove, LastHigher, Timely, LastCloser, Observed, Reached;
    WhatIsSeen(es, n);
  }

  /** The observation of a beat, in terms of the whole history. */
  lemma WhatIsSeen(es: seq<Event>, n: nat)
    requires n < |es| && Timely(es) && es[n].Beat?
    ensures var e, now := es[n], es[n].now;
            Observed(Reached(es, n), e) ==
            Observation(true, e.peers, e.branch, e.repairStuck, e.stranded, BestKnown(e.peers, e.backed, e.height),
                        e.height, SatSub(now, LastMove(es, n + 1)), SatSub(now, LastCloser(es, n + 1)),
                        SatSub(now, LastHigher(es, n + 1)))
  {
    hide LastMove, LastHigher, Timely, Hears, Tracks, LastCloser, Seen, After, SatSub, BestKnown;
    ClocksAre(es, n + 1);
    ClaimClock(es, n + 1);
    ObserveGapOnly(Reached(es, n), es[n]);
    ClaimOnly(Reached(es, n), es[n]);
  }

  // ----- catching up after having been level -----

  /** Once the node has been level, only being level restarts the gap clock. */
  lemma OnlyLevelRearms(es: seq<Event>, k: nat, i: nat)
    requires k < i < |es| && Gap(es[k]).Some? && Gap(es[k]).value <= 1
    ensures Closer(es, i) <==> Gap(es[i]).Some? && Gap(es[i]).value <= 1
  {
    hide Gap;
    assert Gap(es[k]).value <= 1;
  }

  /** So a node that falls behind after being level is Stalled once the threshold has passed
      since it was level, whether or not the gap is closing; and not before, while it moves. */
  lemma CatchingUp(es: seq<Event>, k: nat, n: nat)
    requires k < n < |es| && Timely(es) && Gap(es[k]).Some? && Gap(es[k]).value <= 1
    requires forall i :: k < i <= n && Gap(es[i]).Some? ==> Gap(es[i]).value > 1
    requires Undisturbed(es[n])
    ensures VerdictAt(es, n).status ==
            if SatSub(es[n].now, LastMove(es, n + 1)) >= STALL_AFTER || es[n].now - es[k].now >= STALL_AFTER
            then Stalled else Syncing
  {
    hide LastMove, VerdictAt, Closer;
    assert Gap(es[n]).Some?;
    BehindIsStalled(es, n);
    LevelWasLast(es, k, n + 1);
  }

  lemma {:induction false} LevelWasLast(es: seq<Event>, k: nat, n: nat)
    requires k < n <= |es| && Gap(es[k]).Some? && Gap(es[k]).value <= 1
    requires forall i :: k < i < n && Gap(es[i]).Some? ==> Gap(es[i]).value > 1
    ensures LastCloser(es, n) == es[k].now
  {
    hide Gap;
    if n - 1 > k {
      OnlyLevelRearms(es, k, n - 1);
      LevelWasLast(es, k, n - 1);
    }
  }

  function Plain(now: nat, height: nat, backed: nat): Event { Beat(now, height, 8, backed, backed, None, false, false) }

  /** Level, then a thousand behind, then two hundred: reported as a gap that stands. */
  lemma ShrinkingGapIsStalled()
    ensures var es := [Plain(0, 10, 10), Plain(100, 10, 1000), Plain(190, 800, 1000)];
            && Gap(es[1]) == Some(990) && Gap(es[2]) == Some(200) && VerdictAt(es, 2) == Verdict(Stalled, GapStands)
  {
    var es := [Plain(0, 10, 10), Plain(100, 10, 1000), Plain(190, 800, 1000)];
    var c1 := After(FRESH, es[0]);
    assert Reached(es, 0) == FRESH;
    assert Reached(es, 1) == c1;
    assert Reached(es, 2) == After(c1, es[1]);
  }

  // ----- the height peers back -----

  function Insert(x: nat, s: seq<nat>): seq<nat> {
    if s == [] then [x] else if x >= s[0] then [x] + s else [s[0]] + Insert(x, s[1..])
  }

  function SortDown(s: seq<nat>): seq<nat> { if s == [] then [] else Insert(s[0], SortDown(s[1..])) }

  predicate Descending(s: seq<nat>) { forall i, j :: 0 <= i < j < |s| ==> s[i] >= s[j] }

  /** How many claim at least t. */
  function Claiming(s: seq<nat>, t: nat): nat {
    if s == [] then 0 else (if s[0] >= t then 1 else 0) + Claiming(s[1..], t)
  }

  lemma {:induction false} InsertSorted(x: nat, s: seq<nat>)
    requires Descending(s)
    ensures Descending(Insert(x, s)) && |Insert(x, s)| == |s| + 1
    ensures Insert(x, s)[0] == x || (s != [] && Insert(x, s)[0] == s[0])
  {
    if s != [] && x < s[0] {
      InsertSorted(x, s[1..]);
      var t := Insert(x, s[1..]);
      assert Insert(x, s) == [s[0]] + t;
      assert s[0] >= t[0];
      forall j | 0 <= j < |t| ensures s[0] >= t[j] {
        assert j > 0 ==> t[0] >= t[j];
      }
    }
  }

  lemma {:induction false} InsertClaims(x: nat, s: seq<nat>, t: nat)
    ensures Claiming(Insert(x, s), t) == Claiming(s, t) + if x >= t then 1 else 0
  {
    if s == [] {
      assert [x][1..] == [];
    } else if x >= s[0] {
      assert ([x] + s)[1..] == s;
    } else {
      InsertClaims(x, s[1..], t);
      assert ([s[0]] + Insert(x, s[1..]))[1..] == Insert(x, s[1..]);
    }
  }

  lemma {:induction false} SortDownSorted(s: seq<nat>, t: nat)
    ensures Descending(SortDown(s)) && |SortDown(s)| == |s| && Claiming(SortDown(s), t) == Claiming(s, t)
  {
    hide Insert, Descending;
    if s != [] {
      SortDownSorted(s[1..], t);
      InsertSorted(s[0], SortDown(s[1..]));
      InsertClaims(s[0], SortDown(s[1..]), t);
    } else {
      NoneDescends();
    }
  }

  lemma NoneDescends()
    ensures Descending([])
  {
  }

  function BackedHeight(claims: seq<nat>): nat {
    var v := SortDown(claims);
    if |v| == 0 then 0 else if |v| == 1 then v[0] else v[1]
  }

  lemma {:induction false} NoneClaim(s: seq<nat>, t: nat)
    requires forall i :: 0 <= i < |s| ==> s[i] < t
    ensures Claiming(s, t) == 0
  {
    if s != [] {
      NoneClaim(s[1..], t);
    }
  }

  /** With two peers or more, the height that counts is the greatest that two of them claim. */
  lemma BackedByTwo(claims: seq<nat>, t: nat)
    requires |claims| >= 2
    ensures t <= BackedHeight(claims) <==> Claiming(claims, t) >= 2
  {
    hide SortDown;
    var v := SortDown(claims);
    SortDownSorted(claims, t);
    if v[1] < t {
      NoneClaim(v[1..], t);
    } else {
      assert v[0] >= v[1] && v[1..][0] == v[1];
    }
  }

  lemma {:induction false} OneOther(s: seq<nat>, t: nat, i: nat)
    requires i < |s| && forall j :: 0 <= j < |s| && j != i ==> s[j] < t
    ensures Claiming(s, t) <= 1
  {
    if i == 0 {
      NoneClaim(s[1..], t);
    } else {
      OneOther(s[1..], t, i - 1);
    }
  }

  /** Whatever one peer claims, another claims at least the height that counts. */
  lemma OneClaimCannotRaise(claims: seq<nat>, i: nat)
    requires i < |claims| && |claims| >= 2
    ensures exists j :: 0 <= j < |claims| && j != i && claims[j] >= BackedHeight(claims)
  {
    hide BackedHeight, Claiming;
    var t := BackedHeight(claims);
    BackedByTwo(claims, t);
    if forall j :: 0 <= j < |claims| && j != i ==> claims[j] < t {
      OneOther(claims, t, i);
    }
  }
}
