/** The program builder: a shuffle of fixed roles per block and round-robin opcode pools,
    driven by a generator whose output is arbitrary here. */
module ProgramBuilder {
  import opened Isochron

  /** One 64-bit output of the generator: its value and its low 32 bits. */
  datatype Draw = Draw(value: nat, low: bv32)

  const BLOCKS: nat := 32
  const BLOCK_INSTR: nat := 16

  type Class = k: nat | k < 6

  /** The class of each of a block's sixteen roles: six arithmetic, a rotate by constant, a
      rotate by register, five memory, a multiply, two AES. */
  function PerBlock(t: nat): Class {
    if t < 6 then 0 else if t == 6 then 1 else if t == 7 then 2 else if t < 13 then 3 else if t == 13 then 4 else 5
  }

  const ROLE_OFFS: seq<nat> := [3, 5, 1, 7, 2, 6, 4, 5]

  const ALU_POOL: seq<Op> := [Add, Sub, Xor, Or, And, Andn]
  const ROT_POOL: seq<Op> := [Rolx, Rola, Rorx, Rora]
  const ROTREG_POOL: seq<Op> := [Vrol, Vror]
  const MEM_POOL: seq<Op> := [Load, Store, Rmw, Loadb, Storeb, Rmwb]
  const MUL_POOL: seq<Op> := [Mullo, Mulhi]

  function PoolAt(k: Class, c: nat): Op {
    match k
    case 0 => ALU_POOL[c % 6]
    case 1 => ROT_POOL[c % 4]
    case 2 => ROTREG_POOL[c % 2]
    case 3 => MEM_POOL[c % 6]
    case 4 => MUL_POOL[c % 2]
    case _ => Aesr
  }

  // ----- the shuffle -----

  function Swap(s: seq<nat>, i: nat, j: nat): seq<nat>
    requires i < |s| && j < |s|
  {
    s[i := s[j]][j := s[i]]
  }

  /** The steps of the shuffle from position i down to 1. */
  function Shuffled(draw: nat -> Draw, at: nat, idx: seq<nat>, i: nat): (r: seq<nat>)
    requires i < |idx|
    ensures |r| == |idx|
    decreases i
  {
    if i == 0 then idx
    else Shuffled(draw, at + 1, Swap(idx, i, draw(at).value % (i + 1)), i - 1)
  }

  function Identity(): seq<nat> { seq(BLOCK_INSTR, i => i) }

  /** Each of the sixteen roles once. */
  predicate Roles(idx: seq<nat>) {
    && |idx| == BLOCK_INSTR
    && (forall i :: 0 <= i < |idx| ==> idx[i] < BLOCK_INSTR)
    && (forall i, j :: 0 <= i < j < |idx| ==> idx[i] != idx[j])
  }

  lemma {:induction false} ShuffledKeepsRoles(draw: nat -> Draw, at: nat, idx: seq<nat>, i: nat)
    requires Roles(idx) && i < BLOCK_INSTR
    ensures Roles(Shuffled(draw, at, idx, i))
    decreases i
  {
    if i > 0 {
      ShuffledKeepsRoles(draw, at + 1, Swap(idx, i, draw(at).value % (i + 1)), i - 1);
    }
  }

  function Dealt(draw: nat -> Draw, at: nat): (idx: seq<nat>)
    ensures Roles(idx)
  {
    ShuffledKeepsRoles(draw, at, Identity(), BLOCK_INSTR - 1);
    Shuffled(draw, at, Identity(), BLOCK_INSTR - 1)
  }

  // ----- the program -----

  datatype Build = Build(prog: seq<Instr>, ctr: seq<nat>)

  function AddSlot(b: Build, t: nat, imm: bv32): (b': Build)
    requires t < BLOCK_INSTR && |b.ctr| == 6
    ensures |b'.ctr| == 6 && |b'.prog| == |b.prog| + 1
  {
    var k, d := PerBlock(t), t % 8;
    Build(b.prog + [Instr(PoolAt(k, b.ctr[k]), d, (d + ROLE_OFFS[t % 8]) % 8, imm)], b.ctr[k := b.ctr[k] + 1])
  }

  /** The first n slots of a block whose roles are placed by `idx`. */
  function AddBlock(draw: nat -> Draw, at: nat, idx: seq<nat>, b: Build, n: nat): (b': Build)
    requires Roles(idx) && n <= BLOCK_INSTR && |b.ctr| == 6
    ensures |b'.ctr| == 6 && |b'.prog| == |b.prog| + n
  {
    if n == 0 then b else AddSlot(AddBlock(draw, at, idx, b, n - 1), idx[n - 1], draw(at + n - 1).low)
  }

  /** How the roles of block n are placed: fifteen draws shuffle, sixteen are immediates. */
  function Placement(draw: nat -> Draw, n: nat): (idx: seq<nat>)
    ensures Roles(idx)
  {
    Dealt(draw, 31 * n)
  }

  function AllBlocks(draw: nat -> Draw, n: nat): (b: Build)
    ensures |b.ctr| == 6 && |b.prog| == BLOCK_INSTR * n
  {
    if n == 0 then Build([], [0, 0, 0, 0, 0, 0])
    else AddBlock(draw, 31 * (n - 1) + 15, Placement(draw, n - 1), AllBlocks(draw, n - 1), BLOCK_INSTR)
  }

  function Program(draw: nat -> Draw): (prog: seq<Instr>)
    ensures |prog| == 512
  {
    AllBlocks(draw, BLOCKS).prog
  }

  // ----- the histogram -----

  function Count(prog: seq<Instr>, op: Op): nat {
    if prog == [] then 0
    else Count(prog[..|prog| - 1], op) + if prog[|prog| - 1].op == op then 1 else 0
  }

  /** The class of an opcode, its place in the class's pool, and the size of the pool. */
  function ClassOf(op: Op): Class {
    match op
    case Add | Sub | Xor | Or | And | Andn => 0
    case Rolx | Rola | Rorx | Rora => 1
    case Vrol | Vror => 2
    case Load | Store | Rmw | Loadb | Storeb | Rmwb => 3
    case Mullo | Mulhi => 4
    case Aesr => 5
  }

  function RankOf(op: Op): nat {
    match op
    case Add => 0 case Sub => 1 case Xor => 2 case Or => 3 case And => 4 case Andn => 5
    case Rolx => 0 case Rola => 1 case Rorx => 2 case Rora => 3
    case Vrol => 0 case Vror => 1
    case Load => 0 case Store => 1 case Rmw => 2 case Loadb => 3 case Storeb => 4 case Rmwb => 5
    case Mullo => 0 case Mulhi => 1
    case Aesr => 0
  }

  function PoolSize(k: Class): (n: nat)
    ensures n > 0
  {
    match k case 0 => 6 case 1 => 4 case 2 => 2 case 3 => 6 case 4 => 2 case _ => 1
  }

  lemma PoolAtIs(k: Class, c: nat, op: Op)
    ensures PoolAt(k, c) == op <==> k == ClassOf(op) && c % PoolSize(k) == RankOf(op)
  {
  }

  /** How often c round-robin picks over a pool of n hit place r. */
  function Picks(c: nat, n: nat, r: nat): nat
    requires r < n
  {
    (c + n - 1 - r) / n
  }

  lemma NextPick(c: nat, n: nat, r: nat)
    requires r < n && n in {1, 2, 4, 6}
    ensures Picks(c + 1, n, r) == Picks(c, n, r) + if c % n == r then 1 else 0
  {
  }

  lemma RankInPool(op: Op)
    ensures RankOf(op) < PoolSize(ClassOf(op))
  {
  }

  ghost predicate RoundRobin(b: Build)
    requires |b.ctr| == 6
  {
    forall op: Op :: (RankInPool(op); Count(b.prog, op) == Picks(b.ctr[ClassOf(op)], PoolSize(ClassOf(op)), RankOf(op)))
  }

  lemma SlotKeepsRoundRobin(b: Build, t: nat, imm: bv32)
    requires t < BLOCK_INSTR && |b.ctr| == 6 && RoundRobin(b)
    ensures RoundRobin(AddSlot(b, t, imm))
  {
    hide PoolAt, Picks, RankOf;
    var b', k := AddSlot(b, t, imm), PerBlock(t);
    forall op: Op
      ensures (RankInPool(op); Count(b'.prog, op) == Picks(b'.ctr[ClassOf(op)], PoolSize(ClassOf(op)), RankOf(op)))
    {
      RankInPool(op);
      PoolAtIs(k, b.ctr[k], op);
      NextPick(b.ctr[k], PoolSize(k), if k == ClassOf(op) then RankOf(op) else 0);
      assert b'.prog[..|b.prog|] == b.prog;
    }
  }

  /** No slot names the same register twice. */
  predicate Apart(prog: seq<Instr>) { forall i :: 0 <= i < |prog| ==> prog[i].d != prog[i].s }

  lemma {:induction false} BlockKeeps(draw: nat -> Draw, at: nat, idx: seq<nat>, b: Build, n: nat)
    requires Roles(idx) && n <= BLOCK_INSTR && |b.ctr| == 6 && RoundRobin(b) && Apart(b.prog)
    ensures var b' := AddBlock(draw, at, idx, b, n); RoundRobin(b') && Apart(b'.prog)
  {
    hide RoundRobin, PoolAt;
    if n > 0 {
      BlockKeeps(draw, at, idx, b, n - 1);
      SlotKeepsRoundRobin(AddBlock(draw, at, idx, b, n - 1), idx[n - 1], draw(at + n - 1).low);
    }
  }

  // ----- how often each class comes up in a block -----

  function RolesOf(k: Class, used: set<nat>): set<nat> {
    set t | t in used && t < BLOCK_INSTR && PerBlock(t) == k
  }

  function Used(idx: seq<nat>, n: nat): set<nat>
    requires n <= |idx|
  {
    set i | 0 <= i < n :: idx[i]
  }

  lemma OneMoreRole(idx: seq<nat>, n: nat, k: Class)
    requires Roles(idx) && n < BLOCK_INSTR
    ensures |RolesOf(k, Used(idx, n + 1))| == |RolesOf(k, Used(idx, n))| + if PerBlock(idx[n]) == k then 1 else 0
  {
    assert Used(idx, n + 1) == Used(idx, n) + {idx[n]};
    assert idx[n] !in Used(idx, n);
    if PerBlock(idx[n]) == k {
      assert RolesOf(k, Used(idx, n + 1)) == RolesOf(k, Used(idx, n)) + {idx[n]};
    } else {
      assert RolesOf(k, Used(idx, n + 1)) == RolesOf(k, Used(idx, n));
    }
  }

  lemma {:induction false} CountersGrow(draw: nat -> Draw, at: nat, idx: seq<nat>, b: Build, n: nat, k: Class)
    requires Roles(idx) && n <= BLOCK_INSTR && |b.ctr| == 6
    ensures AddBlock(draw, at, idx, b, n).ctr[k] == b.ctr[k] + |RolesOf(k, Used(idx, n))|
  {
    hide RolesOf, Used, AddSlot;
    if n == 0 {
      NoRoles(idx, k);
    } else {
      CountersGrow(draw, at, idx, b, n - 1, k);
      OneMoreRole(idx, n - 1, k);
      CounterStep(AddBlock(draw, at, idx, b, n - 1), idx[n - 1], draw(at + n - 1).low, k);
    }
  }

  lemma NoRoles(idx: seq<nat>, k: Class)
    ensures |RolesOf(k, Used(idx, 0))| == 0
  {
    assert RolesOf(k, Used(idx, 0)) == {};
  }

  lemma CounterStep(b: Build, t: nat, imm: bv32, k: Class)
    requires t < BLOCK_INSTR && |b.ctr| == 6
    ensures AddSlot(b, t, imm).ctr[k] == b.ctr[k] + if PerBlock(t) == k then 1 else 0
  {
    hide PoolAt;
  }

  lemma {:induction false} UsedSize(idx: seq<nat>, n: nat)
    requires Roles(idx) && n <= BLOCK_INSTR
    ensures |Used(idx, n)| == n
  {
    if n == 0 {
      assert Used(idx, 0) == {};
    } else {
      UsedSize(idx, n - 1);
      assert Used(idx, n) == Used(idx, n - 1) + {idx[n - 1]};
    }
  }

  lemma SameSize(a: set<nat>, b: set<nat>)
    requires a <= b && |a| == |b|
    ensures a == b
  {
    assert |b - a| == |b| - |a|;
  }

  /** A full block uses every role. */
  lemma AllUsed(idx: seq<nat>)
    requires Roles(idx)
    ensures Used(idx, BLOCK_INSTR) == Used(Identity(), BLOCK_INSTR)
  {
    UsedSize(idx, BLOCK_INSTR);
    UsedSize(Identity(), BLOCK_INSTR);
    forall t | t in Used(idx, BLOCK_INSTR) ensures t in Used(Identity(), BLOCK_INSTR) {
      assert Identity()[t] == t;
    }
    SameSize(Used(idx, BLOCK_INSTR), Used(Identity(), BLOCK_INSTR));
  }

  function PerClass(k: Class): nat {
    match k case 0 => 6 case 1 => 1 case 2 => 1 case 3 => 5 case 4 => 1 case _ => 2
  }

  lemma ClassSizes(k: Class)
    ensures |RolesOf(k, Used(Identity(), BLOCK_INSTR))| == PerClass(k)
  {
    hide Used;
    var every, s := Used(Identity(), BLOCK_INSTR), RolesOf(k, Used(Identity(), BLOCK_INSTR));
    assert forall t: nat :: t in every <==> t < BLOCK_INSTR by { EveryRole(); }
    match k {
      case 0 => assert s == {0, 1, 2, 3, 4, 5};
      case 1 => assert s == {6};
      case 2 => assert s == {7};
      case 3 => assert s == {8, 9, 10, 11, 12};
      case 4 => assert s == {13};
      case _ => assert s == {14, 15};
    }
  }

  lemma EveryRole()
    ensures forall t: nat :: t in Used(Identity(), BLOCK_INSTR) <==> t < BLOCK_INSTR
  {
    forall t: nat ensures t in Used(Identity(), BLOCK_INSTR) <==> t < BLOCK_INSTR {
      if t < BLOCK_INSTR {
        assert Identity()[t] == t;
      }
    }
  }

  lemma {:induction false} AfterBlocks(draw: nat -> Draw, n: nat)
    ensures var b := AllBlocks(draw, n);
            && RoundRobin(b) && Apart(b.prog)
            && (forall k: Class :: b.ctr[k] == n * PerClass(k))
  {
    hide RoundRobin, RolesOf, Used, AddBlock, PerClass, Placement, Roles;
    if n == 0 {
      NoneCounted();
    } else {
      AfterBlocks(draw, n - 1);
      var idx, at, b := Placement(draw, n - 1), 31 * (n - 1) + 15, AllBlocks(draw, n - 1);
      BlockKeeps(draw, at, idx, b, BLOCK_INSTR);
      AllUsed(idx);
      forall k: Class ensures AllBlocks(draw, n).ctr[k] == n * PerClass(k) {
        CountersGrow(draw, at, idx, b, BLOCK_INSTR, k);
        ClassSizes(k);
        assert n * PerClass(k) == (n - 1) * PerClass(k) + PerClass(k);
      }
    }
  }

  lemma NoneCounted()
    ensures RoundRobin(Build([], [0, 0, 0, 0, 0, 0]))
  {
  }

  /** The frozen histogram. */
  function Hist(op: Op): nat {
    match op
    case Add | Sub | Xor | Or | And | Andn => 32
    case Rolx | Rola | Rorx | Rora => 8
    case Vrol | Vror => 16
    case Load | Store | Rmw | Loadb => 27
    case Storeb | Rmwb => 26
    case Mullo | Mulhi => 16
    case Aesr => 64
  }

  /** Whatever the generator yields, every opcode comes up exactly as often as the frozen
      histogram says, and no slot has its destination as its source. */
  lemma HistogramFixed(draw: nat -> Draw)
    ensures forall op: Op :: Count(Program(draw), op) == Hist(op)
    ensures Apart(Program(draw))
  {
    hide AllBlocks;
    AfterBlocks(draw, BLOCKS);
    forall op: Op ensures Count(Program(draw), op) == Hist(op) {
      RankInPool(op);
    }
  }

  // ----- the builder as it runs -----

  lemma DealtFrom(draw: nat -> Draw, at: nat, idx: seq<nat>, i: nat)
    requires idx == Identity() && i == BLOCK_INSTR - 1
    ensures Shuffled(draw, at, idx, i) == Dealt(draw, at)
  {
    hide Shuffled;
  }

  lemma ShuffledStep(draw: nat -> Draw, at: nat, idx: seq<nat>, i: nat)
    requires i < |idx|
    ensures Shuffled(draw, at, idx, i)
         == if i == 0 then idx else Shuffled(draw, at + 1, Swap(idx, i, draw(at).value % (i + 1)), i - 1)
  {
  }

  /** Fisher-Yates in place. */
  method Shuffle(draw: nat -> Draw, at: nat) returns (idx: array<nat>)
    ensures fresh(idx) && idx[..] == Dealt(draw, at)
  {
    hide Dealt, Shuffled;
    idx := new nat[BLOCK_INSTR](i => i);
    assert idx[..] == Identity();
    var i: nat, n := BLOCK_INSTR - 1, at;
    DealtFrom(draw, at, idx[..], i);
    while i > 0
      invariant i < BLOCK_INSTR
      invariant Shuffled(draw, n, idx[..], i) == Dealt(draw, at)
    {
      var j := draw(n).value % (i + 1);
      ghost var was := idx[..];
      ShuffledStep(draw, n, was, i);
      idx[i], idx[j] := idx[j], idx[i];
      assert idx[..] == Swap(was, i, j);
      i, n := i - 1, n + 1;
    }
    ShuffledStep(draw, n, idx[..], 0);
  }

  /** One slot: the opcode from its class's pool, the registers from its role. */
  method PlaceSlot(prog: array<Instr>, ctr: array<nat>, m: nat, t: nat, imm: bv32)
    requires m < prog.Length && ctr.Length == 6 && t < BLOCK_INSTR
    modifies prog, ctr
    ensures Build(prog[..m + 1], ctr[..]) == AddSlot(Build(old(prog[..m]), old(ctr[..])), t, imm)
  {
    hide PoolAt;
    var k, d := PerBlock(t), t % 8;
    prog[m] := Instr(PoolAt(k, ctr[k]), d, (d + ROLE_OFFS[t % 8]) % 8, imm);
    ctr[k] := ctr[k] + 1;
    assert prog[..m + 1] == old(prog[..m]) + [prog[m]];
  }

  method PlaceBlock(draw: nat -> Draw, at: nat, idx: array<nat>, prog: array<Instr>, ctr: array<nat>, base: nat)
    requires base + BLOCK_INSTR <= prog.Length && ctr.Length == 6 && Roles(idx[..]) && idx != ctr
    modifies prog, ctr
    ensures Build(prog[..base + BLOCK_INSTR], ctr[..])
         == AddBlock(draw, at, old(idx[..]), Build(old(prog[..base]), old(ctr[..])), BLOCK_INSTR)
  {
    hide AddSlot;
    ghost var roles, b := idx[..], Build(prog[..base], ctr[..]);
    for i := 0 to BLOCK_INSTR
      invariant idx[..] == roles
      invariant Build(prog[..base + i], ctr[..]) == AddBlock(draw, at, roles, b, i)
    {
      assert idx[i] == roles[i];
      PlaceSlot(prog, ctr, base + i, idx[i], draw(at + i).low);
    }
  }

  method BuildProgram(draw: nat -> Draw) returns (prog: array<Instr>)
    ensures fresh(prog) && prog[..] == Program(draw)
  {
    hide AddBlock, Dealt, Roles;
    var ctr := new nat[6](_ => 0);
    prog := new Instr[BLOCKS * BLOCK_INSTR](_ => Instr(Add, 0, 0, 0));
    assert ctr[..] == [0, 0, 0, 0, 0, 0];
    for b := 0 to BLOCKS
      invariant Build(prog[..BLOCK_INSTR * b], ctr[..]) == AllBlocks(draw, b)
    {
      var idx := Shuffle(draw, 31 * b);
      PlaceBlock(draw, 31 * b + 15, idx, prog, ctr, BLOCK_INSTR * b);
    }
    assert prog[..] == prog[..BLOCK_INSTR * BLOCKS];
  }
}
