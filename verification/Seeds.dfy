/** Bootstrapping from seeds: one attempt at all names, and the driver that repeats it. */
module Seeds {
  import opened Wrappers
  import opened Text
  import opened Hostnames
  import opened Interleave

  datatype Addr = Addr(ip: nat, port: nat)

  const MAX_PER_SEED: nat := 8

  const MAX_TOTAL: nat := 32

  const SETTLED_MS: nat := 30_000

  const MAX_U32: nat := 0xFFFF_FFFF

  function Backoff(i: nat): nat
    requires i < 5
  {
    match i case 0 => 5_000 case 1 => 15_000 case 2 => 60_000 case 3 => 300_000 case 4 => 600_000
  }

  /** What the resolver says to one question. */
  datatype Reply = Answers(addrs: seq<Addr>) | Failure(why: string)

  datatype Note =
    | LiteralNote(addr: Addr)
    | Resolved(host: string, kept: nat, unroutable: nat, capped: nat)
    | EmptyNote(host: string, unroutable: nat)
    | FailedNote(host: string, message: string)
    | PlaceholderNote(host: string)
    | MalformedNote(why: Why)

  // ----- the answers of one name -----

  /** Which addresses of a reply are kept, given those already seen; and how many are not
      routable. */
  datatype Sifted = Sifted(kept: seq<Addr>, seen: set<Addr>, unroutable: nat)

  function SiftOne(routable: Addr -> bool, s: Sifted, a: Addr): Sifted {
    if !routable(a) then s.(unroutable := s.unroutable + 1)
    else if |s.kept| >= MAX_PER_SEED || a in s.seen then s
    else Sifted(s.kept + [a], s.seen + {a}, s.unroutable)
  }

  function Sift(routable: Addr -> bool, answers: seq<Addr>, seen: set<Addr>): Sifted {
    if answers == [] then Sifted([], seen, 0)
    else SiftOne(routable, Sift(routable, answers[..|answers| - 1], seen), answers[|answers| - 1])
  }

  /** Routable answers that were left out: over the cap, or an address seen before. */
  function Dropped(routable: Addr -> bool, answers: seq<Addr>, seen: set<Addr>): nat {
    if answers == [] then 0
    else
      var rest, a := answers[..|answers| - 1], answers[|answers| - 1];
      var s := Sift(routable, rest, seen);
      Dropped(routable, rest, seen) + if routable(a) && (|s.kept| >= MAX_PER_SEED || a in s.seen) then 1 else 0
  }

  /** Nothing is lost from the count, and what is kept is routable, new and within the cap. */
  lemma {:induction false} SiftCounts(routable: Addr -> bool, answers: seq<Addr>, seen: set<Addr>)
    ensures var s := Sift(routable, answers, seen);
            && |s.kept| + s.unroutable + Dropped(routable, answers, seen) == |answers|
            && |s.kept| <= MAX_PER_SEED && Distinct(s.kept) && s.seen == seen + (set a | a in s.kept)
            && (forall a :: a in s.kept ==> a in answers && a !in seen && routable(a))
  {
    if answers != [] {
      SiftCounts(routable, answers[..|answers| - 1], seen);
    }
  }

  /** A reply yields nothing exactly when every routable answer in it was seen before. */
  lemma {:induction false} NothingKept(routable: Addr -> bool, answers: seq<Addr>, seen: set<Addr>)
    ensures Sift(routable, answers, seen).kept == [] <==> forall i :: 0 <= i < |answers| && routable(answers[i]) ==>
              answers[i] in seen
    ensures Sift(routable, answers, seen).kept == [] ==> Sift(routable, answers, seen).seen == seen
  {
    if answers != [] {
      NothingKept(routable, answers[..|answers| - 1], seen);
    }
  }

  lemma {:induction false} UnroutableCount(routable: Addr -> bool, answers: seq<Addr>, seen: set<Addr>)
    ensures Sift(routable, answers, seen).unroutable <= |answers|
    ensures Sift(routable, answers, seen).unroutable == |answers| <==> forall i :: 0 <= i < |answers| ==>
              !routable(answers[i])
  {
    if answers != [] {
      UnroutableCount(routable, answers[..|answers| - 1], seen);
    }
  }

  // ----- one attempt -----

  datatype Gathering = Gathering(notes: seq<Note>, buckets: seq<seq<Addr>>, seen: set<Addr>)

  function GatherHost(routable: Addr -> bool, g: Gathering, name: string, reply: Reply): Gathering {
    match reply
    case Failure(why) => g.(notes := g.notes + [FailedNote(name, why)])
    case Answers(addrs) =>
      SiftCounts(routable, addrs, g.seen);
      var s := Sift(routable, addrs, g.seen);
      if s.kept == [] then Gathering(g.notes + [EmptyNote(name, s.unroutable)], g.buckets, s.seen)
      else Gathering(g.notes + [Resolved(name, |s.kept|, s.unroutable, |addrs| - s.unroutable - |s.kept|)],
                     g.buckets + [s.kept], s.seen)
  }

  function GatherSeed(routable: Addr -> bool, g: Gathering, seed: Seed<nat>, reply: Reply): Gathering {
    match seed
    case Literal(ip, port) =>
      var a := Addr(ip, port);
      if a in g.seen then g.(notes := g.notes + [LiteralNote(a)])
      else Gathering(g.notes + [LiteralNote(a)], g.buckets + [[a]], g.seen + {a})
    case Placeholder(name) => g.(notes := g.notes + [PlaceholderNote(name)])
    case Malformed(why) => g.(notes := g.notes + [MalformedNote(why)])
    case Host(name, _) => GatherHost(routable, g, name, reply)
  }

  /** All seeds in order; the i-th reply is the resolver's to the i-th seed if it is a name. */
  function GatherAll(routable: Addr -> bool, seeds: seq<Seed<nat>>, replies: seq<Reply>, n: nat): Gathering
    requires n <= |seeds| <= |replies|
  {
    if n == 0 then Gathering([], [], {})
    else GatherSeed(routable, GatherAll(routable, seeds, replies, n - 1), seeds[n - 1], replies[n - 1])
  }

  /** The address was configured, or is a routable answer to a configured name. */
  ghost predicate Backed(routable: Addr -> bool, seeds: seq<Seed<nat>>, replies: seq<Reply>, a: Addr)
    requires |seeds| <= |replies|
  {
    exists i :: 0 <= i < |seeds| &&
      (seeds[i] == Literal(a.ip, a.port)
       || (seeds[i].Host? && replies[i].Answers? && a in replies[i].addrs && routable(a)))
  }

  ghost predicate Sound(g: Gathering) {
    && Apart(g.buckets)
    && (forall b, a :: 0 <= b < |g.buckets| && a in g.buckets[b] ==> a in g.seen)
  }

  lemma ApartSnoc(buckets: seq<seq<Addr>>, b: seq<Addr>, seen: set<Addr>)
    requires Apart(buckets) && Distinct(b) && (forall a :: a in b ==> a !in seen)
    requires forall k, a :: 0 <= k < |buckets| && a in buckets[k] ==> a in seen
    ensures Apart(buckets + [b])
  {
    var all := buckets + [b];
    forall d: (nat, nat), e: (nat, nat) | IsDraw(all, d) && IsDraw(all, e) && d != e
      ensures all[d.1][d.0] != all[e.1][e.0]
    {
      assert d.1 < |buckets| ==> IsDraw(buckets, d) && all[d.1][d.0] in buckets[d.1];
      assert e.1 < |buckets| ==> IsDraw(buckets, e) && all[e.1][e.0] in buckets[e.1];
      assert d.1 == |buckets| ==> all[d.1][d.0] in b;
      assert e.1 == |buckets| ==> all[e.1][e.0] in b;
    }
  }

  lemma AddBucket(g: Gathering, b: seq<Addr>, note: Note)
    requires Sound(g) && Distinct(b) && (forall a :: a in b ==> a !in g.seen)
    ensures Sound(Gathering(g.notes + [note], g.buckets + [b], g.seen + (set a | a in b)))
  {
    ApartSnoc(g.buckets, b, g.seen);
  }

  lemma SeedSound(routable: Addr -> bool, g: Gathering, seed: Seed<nat>, reply: Reply)
    requires Sound(g)
    ensures Sound(GatherSeed(routable, g, seed, reply))
  {
    hide Sift, Sound;
    match seed {
      case Literal(ip, port) =>
        var a := Addr(ip, port);
        SameBuckets(g, g.(notes := g.notes + [LiteralNote(a)]));
        if a !in g.seen {
          AddBucket(g, [a], LiteralNote(a));
          assert (set x | x in [a]) == {a};
        }
      case Host(name, port) =>
        if reply.Answers? {
          SiftCounts(routable, reply.addrs, g.seen);
          var s := Sift(routable, reply.addrs, g.seen);
          if s.kept == [] {
            SameBuckets(g, GatherSeed(routable, g, seed, reply));
          } else {
            AddBucket(g, s.kept, GatherSeed(routable, g, seed, reply).notes[|g.notes|]);
          }
        } else {
          SameBuckets(g, GatherSeed(routable, g, seed, reply));
        }
      case _ => SameBuckets(g, GatherSeed(routable, g, seed, reply));
    }
  }

  lemma SameBuckets(g: Gathering, h: Gathering)
    requires Sound(g) && h.buckets == g.buckets && h.seen >= g.seen
    ensures Sound(h)
  {
  }

  lemma {:induction false} AllSound(routable: Addr -> bool, seeds: seq<Seed<nat>>, replies: seq<Reply>, n: nat)
    requires n <= |seeds| <= |replies|
    ensures Sound(GatherAll(routable, seeds, replies, n))
  {
    hide GatherSeed;
    if n > 0 {
      AllSound(routable, seeds, replies, n - 1);
      SeedSound(routable, GatherAll(routable, seeds, replies, n - 1), seeds[n - 1], replies[n - 1]);
    }
  }

  lemma {:induction false} AllBacked(routable: Addr -> bool, seeds: seq<Seed<nat>>, replies: seq<Reply>, n: nat,
                                     b: nat, a: Addr)
    requires n <= |seeds| <= |replies|
    requires var g := GatherAll(routable, seeds, replies, n); b < |g.buckets| && a in g.buckets[b]
    ensures Backed(routable, seeds, replies, a)
  {
    hide Sift, Dropped;
    var g0 := GatherAll(routable, seeds, replies, n - 1);
    if b < |g0.buckets| {
      assert GatherAll(routable, seeds, replies, n).buckets[b] == g0.buckets[b];
      AllBacked(routable, seeds, replies, n - 1, b, a);
    } else if seeds[n - 1].Host? {
      SiftCounts(routable, replies[n - 1].addrs, g0.seen);
    }
  }

  datatype Attempt = Attempt(addrs: seq<Addr>, notes: seq<Note>)

  function AttemptOf(routable: Addr -> bool, seeds: seq<Seed<nat>>, replies: seq<Reply>): Attempt
    requires |seeds| <= |replies|
  {
    var g := GatherAll(routable, seeds, replies, |seeds|);
    Attempt(Interleaved(g.buckets, MAX_TOTAL), g.notes)
  }

  /** One attempt offers each address once, at most the cap, all of them configured or
      routable answers. */
  lemma AttemptIsSound(routable: Addr -> bool, seeds: seq<Seed<nat>>, replies: seq<Reply>)
    requires |seeds| <= |replies|
    ensures var t := AttemptOf(routable, seeds, replies);
            && Distinct(t.addrs) && |t.addrs| <= MAX_TOTAL
            && (forall a :: a in t.addrs ==> Backed(routable, seeds, replies, a))
  {
    hide GatherAll, Interleaved, Backed;
    var g := GatherAll(routable, seeds, replies, |seeds|);
    AllSound(routable, seeds, replies, |seeds|);
    InterleavedDistinct(g.buckets, MAX_TOTAL);
    forall a | a in Interleaved(g.buckets, MAX_TOTAL) ensures Backed(routable, seeds, replies, a) {
      InterleavedFrom(g.buckets, MAX_TOTAL, a);
      var b :| 0 <= b < |g.buckets| && a in g.buckets[b];
      AllBacked(routable, seeds, replies, |seeds|, b, a);
    }
  }

  /** The note of a resolved name accounts for every answer. */
  lemma {:induction false} NotesAccount(routable: Addr -> bool, seeds: seq<Seed<nat>>, replies: seq<Reply>, n: nat,
                                        i: nat)
    requires i < n <= |seeds| <= |replies| && seeds[i].Host? && replies[i].Answers?
    ensures var notes := GatherAll(routable, seeds, replies, n).notes;
            && |notes| == n
            && (notes[i].Resolved? || notes[i].EmptyNote?) && notes[i].host == seeds[i].name
            && (notes[i].Resolved? ==> notes[i].kept + notes[i].unroutable + notes[i].capped == |replies[i].addrs|)
            && (notes[i].EmptyNote? ==> notes[i].unroutable <= |replies[i].addrs|)
  {
    hide Sift, Dropped;
    NoteCount(routable, seeds, replies, n - 1);
    var g0 := GatherAll(routable, seeds, replies, n - 1);
    if i < n - 1 {
      NotesAccount(routable, seeds, replies, n - 1, i);
      assert GatherAll(routable, seeds, replies, n).notes[i] == g0.notes[i];
    } else {
      SiftCounts(routable, replies[i].addrs, g0.seen);
    }
  }

  /** The note of a name that yields nothing says that all its answers, so many, were not
      routable. A name with answers gets that note and it is wrong exactly when some answer is
      routable and every routable one was kept from an earlier seed. */
  lemma EmptyNoteWrong(routable: Addr -> bool, seeds: seq<Seed<nat>>, replies: seq<Reply>, i: nat)
    requires i < |seeds| <= |replies| && seeds[i].Host? && replies[i].Answers?
    ensures var note, answers := GatherAll(routable, seeds, replies, |seeds|).notes, replies[i].addrs;
            var seen := GatherAll(routable, seeds, replies, i).seen;
            && |note| == |seeds|
            && (note[i].EmptyNote? && note[i].unroutable != |answers| <==>
                (exists k :: 0 <= k < |answers| && routable(answers[k]))
                && (forall k :: 0 <= k < |answers| && routable(answers[k]) ==> answers[k] in seen))
  {
    hide Sift, Dropped, GatherAll, GatherSeed;
    var seen := GatherAll(routable, seeds, replies, i).seen;
    NoteCount(routable, seeds, replies, |seeds|);
    NoteStays(routable, seeds, replies, |seeds|, i);
    NoteOf(routable, seeds, replies, i);
    NothingKept(routable, replies[i].addrs, seen);
    UnroutableCount(routable, replies[i].addrs, seen);
  }

  lemma NoteOf(routable: Addr -> bool, seeds: seq<Seed<nat>>, replies: seq<Reply>, i: nat)
    requires i < |seeds| <= |replies| && seeds[i].Host? && replies[i].Answers?
    ensures var s := Sift(routable, replies[i].addrs, GatherAll(routable, seeds, replies, i).seen);
            var notes := GatherAll(routable, seeds, replies, i + 1).notes;
            && |notes| == i + 1
            && (notes[i].EmptyNote? <==> s.kept == []) && (notes[i].EmptyNote? ==> notes[i].unroutable == s.unroutable)
  {
    hide Sift, Dropped;
    NoteCount(routable, seeds, replies, i);
  }

  lemma {:induction false} NoteStays(routable: Addr -> bool, seeds: seq<Seed<nat>>, replies: seq<Reply>, n: nat, i: nat)
    requires i < n <= |seeds| <= |replies|
    ensures |GatherAll(routable, seeds, replies, n).notes| == n
            && |GatherAll(routable, seeds, replies, i + 1).notes| == i + 1
    ensures GatherAll(routable, seeds, replies, n).notes[i] == GatherAll(routable, seeds, replies, i + 1).notes[i]
  {
    hide Sift, Dropped;
    NoteCount(routable, seeds, replies, n);
    NoteCount(routable, seeds, replies, i + 1);
    if i + 1 < n {
      NoteStays(routable, seeds, replies, n - 1, i);
    }
  }

  /** Two names that answer with the same routable address: the second is noted as having no
      routable answer, and its one answer is not in the count. */
  lemma SameAnswerTwice(a: Addr, routable: Addr -> bool, one: string, two: string, port: nat)
    requires routable(a)
    ensures var seeds: seq<Seed<nat>> := [Host(one, port), Host(two, port)];
            var replies := [Answers([a]), Answers([a])];
            GatherAll(routable, seeds, replies, 2).notes == [Resolved(one, 1, 0, 0), EmptyNote(two, 0)]
  {
    var seeds: seq<Seed<nat>> := [Host(one, port), Host(two, port)];
    var replies := [Answers([a]), Answers([a])];
    assert [a][..0] == [];
    assert Sift(routable, [], {}) == Sifted([], {}, 0);
    assert Sift(routable, [a], {}) == Sifted([a], {a}, 0);
    assert Sift(routable, [], {a}) == Sifted([], {a}, 0);
    assert Sift(routable, [a], {a}) == Sifted([], {a}, 0);
    var g0 := GatherAll(routable, seeds, replies, 0);
    var g1 := GatherAll(routable, seeds, replies, 1);
    assert g1 == GatherSeed(routable, g0, seeds[0], replies[0]);
    assert g1 == Gathering([Resolved(one, 1, 0, 0)], [[a]], {a});
  }

  lemma {:induction false} NoteCount(routable: Addr -> bool, seeds: seq<Seed<nat>>, replies: seq<Reply>, n: nat)
    requires n <= |seeds| <= |replies|
    ensures |GatherAll(routable, seeds, replies, n).notes| == n
  {
    hide Sift, Dropped;
    if n > 0 {
      NoteCount(routable, seeds, replies, n - 1);
    }
  }

  method SiftReply(routable: Addr -> bool, answers: seq<Addr>, seen0: set<Addr>) returns (s: Sifted)
    ensures s == Sift(routable, answers, seen0)
  {
    var kept, seen, unroutable := [], seen0, 0;
    for i := 0 to |answers|
      invariant Sifted(kept, seen, unroutable) == Sift(routable, answers[..i], seen0)
    {
      var a := answers[i];
      assert answers[..i + 1][..i] == answers[..i];
      if !routable(a) {
        unroutable := unroutable + 1;
        continue;
      }
      if |kept| >= MAX_PER_SEED {
        continue;
      }
      if a !in seen {
        seen, kept := seen + {a}, kept + [a];
      }
    }
    assert answers[..|answers|] == answers;
    s := Sifted(kept, seen, unroutable);
  }

  // ----- the driver -----

  class Bootstrap {
    const seeds: seq<Seed<nat>>
    var failures: nat

    constructor (seeds: seq<Seed<nat>>)
      ensures this.seeds == seeds && failures == 0
    {
      this.seeds, failures := seeds, 0;
    }

    method Run(routable: Addr -> bool, replies: seq<Reply>) returns (t: Attempt)
      requires |replies| == |seeds|
      ensures t == AttemptOf(routable, seeds, replies)
    {
      hide Sift, Interleaved;
      var notes, buckets, seen := [], [], {};
      for i := 0 to |seeds|
        invariant Gathering(notes, buckets, seen) == GatherAll(routable, seeds, replies, i)
      {
        match seeds[i] {
          case Literal(ip, port) =>
            var a := Addr(ip, port);
            notes := notes + [LiteralNote(a)];
            if a !in seen {
              seen, buckets := seen + {a}, buckets + [[a]];
            }
          case Placeholder(h) => notes := notes + [PlaceholderNote(h)];
          case Malformed(why) => notes := notes + [MalformedNote(why)];
          case Host(name, _) =>
            match replies[i] {
              case Failure(why) => notes := notes + [FailedNote(name, why)];
              case Answers(answers) =>
                var s := SiftReply(routable, answers, seen);
                seen := s.seen;
                var capped := |answers| - s.unroutable - |s.kept|;
                if s.kept == [] {
                  notes := notes + [EmptyNote(name, s.unroutable)];
                } else {
                  SiftCounts(routable, answers, GatherAll(routable, seeds, replies, i).seen);
                  notes, buckets := notes + [Resolved(name, |s.kept|, s.unroutable, capped)], buckets + [s.kept];
                }
            }
        }
      }
      var addrs := DoInterleave(buckets, MAX_TOTAL);
      t := Attempt(addrs, notes);
    }

    method Record(progress: bool)
      modifies this
      ensures failures == if progress then 0 else Min(old(failures) + 1, MAX_U32)
    {
      if progress {
        failures := 0;
      } else if failures >= MAX_U32 {
        failures := MAX_U32;
      } else {
        failures := failures + 1;
      }
    }

    method Settle()
      modifies this
      ensures failures == 0
    {
      failures := 0;
    }

    function BackoffMs(): nat
      reads this
    {
      Rung(failures)
    }
  }

  /** The wait after this many fruitless steps in a row. */
  function Rung(failures: nat): nat { Backoff(Min(if failures == 0 then 0 else failures - 1, 4)) }

  /** What the driver remembers. */
  datatype Memory = Memory(failures: nat, already: set<Addr>)

  /** What the world does between dials: an address is offered from elsewhere, or a step is
      taken with some number of outbound peers and some replies. */
  datatype Event = Offered(addr: Addr) | Stepped(peers: nat, replies: seq<Reply>)

  function Fresh(addrs: seq<Addr>, already: set<Addr>): seq<Addr> {
    if addrs == [] then []
    else
      var last, rest := addrs[|addrs| - 1], Fresh(addrs[..|addrs| - 1], already);
      if last in already || last in addrs[..|addrs| - 1] then rest else rest + [last]
  }

  lemma {:induction false} FreshIs(addrs: seq<Addr>, already: set<Addr>)
    ensures var f := Fresh(addrs, already);
            Distinct(f) && forall a :: a in f <==> a in addrs && a !in already
  {
    if addrs != [] {
      FreshIs(addrs[..|addrs| - 1], already);
      assert addrs == addrs[..|addrs| - 1] + [addrs[|addrs| - 1]];
    }
  }

  lemma FreshNone(already: set<Addr>)
    ensures Fresh([], already) == []
  {
  }

  lemma FreshStep(addrs: seq<Addr>, already: set<Addr>)
    requires addrs != []
    ensures var n, rest := |addrs| - 1, Fresh(addrs[..|addrs| - 1], already);
            Fresh(addrs, already) == if addrs[n] in already || addrs[n] in addrs[..n] then rest else rest + [addrs[n]]
  {
  }

  class Driver {
    const b: Bootstrap
    var already: set<Addr>
    var last: Option<seq<Note>>

    constructor (b: Bootstrap)
      ensures this.b == b && already == {} && last == None
    {
      this.b, already, last := b, {}, None;
    }

    /** One step: settle when a peer is connected, otherwise attempt and dial what is new.
        Returns the addresses dialled, the wait, and whether the notes are to be logged. */
    method Step(routable: Addr -> bool, peers: nat, replies: seq<Reply>)
        returns (dials: seq<Addr>, wait: nat, say: bool)
      requires |replies| == |b.seeds|
      modifies this, b
      ensures (Memory(b.failures, already), dials, wait) ==
              After(routable, b.seeds, old(Memory(b.failures, already)), Stepped(peers, replies))
      ensures peers > 0 ==> last == None && !say
      ensures peers == 0 ==>
                var notes := AttemptOf(routable, b.seeds, replies).notes;
                last == Some(notes) && (say <==> dials != [] || old(last) != Some(notes))
    {
      hide AttemptOf, Rung;
      dials, say := [], false;
      if peers > 0 {
        b.Settle();
        last := None;
        wait := SETTLED_MS;
        return;
      }
      var t := b.Run(routable, replies);
      dials := DialNew(t.addrs);
      b.Record(dials != []);
      wait := b.BackoffMs();
      say := dials != [] || last != Some(t.notes);
      last := Some(t.notes);
    }

    /** Dials the addresses not offered before. */
    method DialNew(addrs: seq<Addr>) returns (dials: seq<Addr>)
      modifies this`already
      ensures dials == Fresh(addrs, old(already)) && already == old(already) + (set a | a in addrs)
    {
      hide Fresh;
      dials := [];
      FreshNone(already);
      for i := 0 to |addrs|
        invariant dials == Fresh(addrs[..i], old(already)) && already == old(already) + (set a | a in addrs[..i])
      {
        FreshStep(addrs[..i + 1], old(already));
        assert addrs[..i + 1][..i] == addrs[..i];
        if addrs[i] !in already {
          already, dials := already + {addrs[i]}, dials + [addrs[i]];
        }
      }
      assert addrs[..|addrs|] == addrs;
    }

    method PreOffered(a: Addr)
      modifies this
      ensures already == old(already) + {a} && last == old(last)
    {
      already := already + {a};
    }
  }

  /** One event: the new memory, the dials and the wait. */
  function After(routable: Addr -> bool, seeds: seq<Seed<nat>>, m: Memory, e: Event): (Memory, seq<Addr>, nat)
    requires e.Stepped? ==> |e.replies| == |seeds|
  {
    match e
    case Offered(a) => (m.(already := m.already + {a}), [], 0)
    case Stepped(peers, replies) =>
      if peers > 0 then (m.(failures := 0), [], SETTLED_MS)
      else
        var addrs := AttemptOf(routable, seeds, replies).addrs;
        var dials := Fresh(addrs, m.already);
        var failures := if dials != [] then 0 else Min(m.failures + 1, MAX_U32);
        (Memory(failures, m.already + (set a | a in addrs)), dials, Rung(failures))
  }

  // ----- whole runs -----

  ghost predicate WellTyped(seeds: seq<Seed<nat>>, es: seq<Event>) {
    forall i :: 0 <= i < |es| && es[i].Stepped? ==> |es[i].replies| == |seeds|
  }

  /** The memory after the first n events. */
  function Reached(routable: Addr -> bool, seeds: seq<Seed<nat>>, es: seq<Event>, n: nat): Memory
    requires n <= |es| && WellTyped(seeds, es)
  {
    if n == 0 then Memory(0, {}) else After(routable, seeds, Reached(routable, seeds, es, n - 1), es[n - 1]).0
  }

  function DialsAt(routable: Addr -> bool, seeds: seq<Seed<nat>>, es: seq<Event>, i: nat): seq<Addr>
    requires i < |es| && WellTyped(seeds, es)
  {
    After(routable, seeds, Reached(routable, seeds, es, i), es[i]).1
  }

  function WaitAt(routable: Addr -> bool, seeds: seq<Seed<nat>>, es: seq<Event>, i: nat): nat
    requires i < |es| && WellTyped(seeds, es)
  {
    After(routable, seeds, Reached(routable, seeds, es, i), es[i]).2
  }

  lemma AfterKeeps(routable: Addr -> bool, seeds: seq<Seed<nat>>, m: Memory, e: Event)
    requires e.Stepped? ==> |e.replies| == |seeds|
    ensures var r := After(routable, seeds, m, e);
            && m.already <= r.0.already && Distinct(r.1)
            && (forall a :: a in r.1 ==> a !in m.already && a in r.0.already)
            && (e.Offered? ==> e.addr in r.0.already)
  {
    hide AttemptOf, Rung, Fresh;
    if e.Stepped? && e.peers == 0 {
      FreshIs(AttemptOf(routable, seeds, e.replies).addrs, m.already);
    }
  }

  lemma {:induction false} Remembered(routable: Addr -> bool, seeds: seq<Seed<nat>>, es: seq<Event>, i: nat, n: nat,
                                      a: Addr)
    requires i < n <= |es| && WellTyped(seeds, es)
    requires es[i] == Offered(a) || a in DialsAt(routable, seeds, es, i)
    ensures a in Reached(routable, seeds, es, n).already
  {
    hide After;
    AfterKeeps(routable, seeds, Reached(routable, seeds, es, n - 1), es[n - 1]);
    if i < n - 1 {
      Remembered(routable, seeds, es, i, n - 1, a);
    }
  }

  /** Over every run the driver dials an address at most once, and never one offered before. */
  lemma DialedOnce(routable: Addr -> bool, seeds: seq<Seed<nat>>, es: seq<Event>, i: nat, j: nat, a: Addr)
    requires i < j < |es| && WellTyped(seeds, es) && a in DialsAt(routable, seeds, es, j)
    ensures es[i] != Offered(a) && a !in DialsAt(routable, seeds, es, i) && Distinct(DialsAt(routable, seeds, es, j))
  {
    hide After, Reached;
    AfterKeeps(routable, seeds, Reached(routable, seeds, es, j), es[j]);
    if es[i] == Offered(a) || a in DialsAt(routable, seeds, es, i) {
      Remembered(routable, seeds, es, i, j, a);
    }
  }

  /** Steps without a new address since the last that had one or found a peer, up to event n. */
  function Streak(routable: Addr -> bool, seeds: seq<Seed<nat>>, es: seq<Event>, n: nat): nat
    requires n <= |es| && WellTyped(seeds, es)
  {
    if n == 0 then 0
    else if es[n - 1].Offered? then Streak(routable, seeds, es, n - 1)
    else if es[n - 1].peers > 0 || DialsAt(routable, seeds, es, n - 1) != [] then 0
    else Streak(routable, seeds, es, n - 1) + 1
  }

  lemma {:induction false} FailuresAreStreak(routable: Addr -> bool, seeds: seq<Seed<nat>>, es: seq<Event>, n: nat)
    requires n <= |es| && WellTyped(seeds, es)
    ensures Reached(routable, seeds, es, n).failures == Min(Streak(routable, seeds, es, n), MAX_U32)
  {
    hide AttemptOf, Fresh, Rung;
    if n > 0 {
      FailuresAreStreak(routable, seeds, es, n - 1);
    }
  }

  /** The wait is the poll interval when a peer is there, and otherwise the ladder's rung for
      the fruitless steps since the last progress or settling, this one counted. */
  lemma WaitIsRung(routable: Addr -> bool, seeds: seq<Seed<nat>>, es: seq<Event>, i: nat)
    requires i < |es| && WellTyped(seeds, es) && es[i].Stepped?
    ensures WaitAt(routable, seeds, es, i) ==
            if es[i].peers > 0 then SETTLED_MS else Rung(Streak(routable, seeds, es, i + 1))
  {
    hide AttemptOf, Fresh, Streak;
    FailuresAreStreak(routable, seeds, es, i + 1);
    assert Rung(Min(Streak(routable, seeds, es, i + 1), MAX_U32)) == Rung(Streak(routable, seeds, es, i + 1));
  }
}
