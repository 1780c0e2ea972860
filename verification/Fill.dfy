/** Filling the scratchpad: the four-way loop and the plain one, against one description. */
module Fill {
  import opened Words
  import opened Hardware
  import opened Isochron

  const FILL_DOM: bv64 := 0x1F83_D9AB_5BE0_CD19
  const LINES: nat := 4096
  const CHAINS: nat := 4

  // ----- what a fill is -----

  function Twice(hw: Hw, key: Block, b: Block): Block { AesEnc(hw, AesEnc(hw, b, key), key) }

  function LineAt(hw: Hw, key: Block, seed: Word, i: nat): Block {
    Twice(hw, key, Block(seed, hw.xor(hw.Count(i), hw.imm64(FILL_DOM))))
  }

  function ChainStart(hw: Hw, seed: Word, j: nat): Block {
    Block(hw.xor(seed, hw.imm64(FILL_DOM)), hw.xor(hw.not(seed), hw.Count(j)))
  }

  /** Chain j after absorbing its first n lines: lines j, j + 4, j + 8, ... */
  function Chain(hw: Hw, key: Block, seed: Word, j: nat, n: nat): Block {
    if n == 0 then ChainStart(hw, seed, j)
    else AesEnc(hw, Chain(hw, key, seed, j, n - 1), LineAt(hw, key, seed, CHAINS * (n - 1) + j))
  }

  function PadWord(hw: Hw, key: Block, seed: Word, w: nat): Word {
    var b := LineAt(hw, key, seed, w / 2);
    if w % 2 == 0 then b.lo else b.hi
  }

  function FillPad(hw: Hw, key: Block, seed: Word): (pad: seq<Word>)
    ensures |pad| == 8192
  {
    seq(8192, w requires 0 <= w => PadWord(hw, key, seed, w))
  }

  function FoldChains(hw: Hw, a0: Block, a1: Block, a2: Block, a3: Block): Block {
    AesEnc(hw, AesEnc(hw, AesEnc(hw, a0, a1), a2), a3)
  }

  function Lanes(hw: Hw, b: Block): Word { hw.xor(b.lo, b.hi) }

  /** The seed of the program, from the four chains. */
  function FillSeed(hw: Hw, key: Block, seed: Word): Word {
    var n := LINES / CHAINS;
    Lanes(hw, Twice(hw, key, FoldChains(hw, Chain(hw, key, seed, 0, n), Chain(hw, key, seed, 1, n),
                                        Chain(hw, key, seed, 2, n), Chain(hw, key, seed, 3, n))))
  }

  /** The first lines of the pad are written. */
  ghost predicate Filled(hw: Hw, key: Block, seed: Word, sc: seq<Word>, lines: nat) {
    |sc| == 8192 && forall w :: 0 <= w < 2 * lines && w < 8192 ==> sc[w] == PadWord(hw, key, seed, w)
  }

  lemma FilledAll(hw: Hw, key: Block, seed: Word, sc: seq<Word>)
    requires Filled(hw, key, seed, sc, LINES)
    ensures sc == FillPad(hw, key, seed)
  {
    hide PadWord;
  }

  method PutLine(hw: Hw, key: Block, seed: Word, sc: array<Word>, i: nat, v: Block)
    requires i < LINES && v == LineAt(hw, key, seed, i) && Filled(hw, key, seed, sc[..], i)
    modifies sc
    ensures Filled(hw, key, seed, sc[..], i + 1)
  {
    hide LineAt;
    sc[2 * i] := v.lo;
    sc[2 * i + 1] := v.hi;
  }

  // ----- the two loops -----

  method Fill(hw: Hw, key: Block, sc: array<Word>, seed: Word) returns (out: Word)
    requires sc.Length == 8192
    modifies sc
    ensures sc[..] == FillPad(hw, key, seed) && out == FillSeed(hw, key, seed)
  {
    hide LineAt, FillPad, Filled, AesEnc, ChainStart;
    var a0, a1 := ChainStart(hw, seed, 0), ChainStart(hw, seed, 1);
    var a2, a3 := ChainStart(hw, seed, 2), ChainStart(hw, seed, 3);
    var i := 0;
    FilledNone(hw, key, seed, sc[..]);
    while i < LINES
      invariant 0 <= i <= LINES && i % CHAINS == 0
      invariant Filled(hw, key, seed, sc[..], i)
      invariant a0 == Chain(hw, key, seed, 0, i / CHAINS) && a1 == Chain(hw, key, seed, 1, i / CHAINS)
      invariant a2 == Chain(hw, key, seed, 2, i / CHAINS) && a3 == Chain(hw, key, seed, 3, i / CHAINS)
    {
      var v0, v1 := LineAt(hw, key, seed, i), LineAt(hw, key, seed, i + 1);
      var v2, v3 := LineAt(hw, key, seed, i + 2), LineAt(hw, key, seed, i + 3);
      PutLine(hw, key, seed, sc, i, v0);
      PutLine(hw, key, seed, sc, i + 1, v1);
      PutLine(hw, key, seed, sc, i + 2, v2);
      PutLine(hw, key, seed, sc, i + 3, v3);
      a0, a1 := AesEnc(hw, a0, v0), AesEnc(hw, a1, v1);
      a2, a3 := AesEnc(hw, a2, v2), AesEnc(hw, a3, v3);
      i := i + CHAINS;
    }
    FilledAll(hw, key, seed, sc[..]);
    var t := AesEnc(hw, a0, a1);
    t := AesEnc(hw, t, a2);
    t := AesEnc(hw, t, a3);
    t := Twice(hw, key, t);
    out := hw.xor(t.lo, t.hi);
  }

  lemma FilledNone(hw: Hw, key: Block, seed: Word, sc: seq<Word>)
    requires |sc| == 8192
    ensures Filled(hw, key, seed, sc, 0)
  {
  }

  // The reference keeps its lines and chains as sixteen bytes.

  function Put(w: Word): (b: seq<bv8>)
    ensures |b| == 8
  {
    ToBytes(w.bits)
  }

  function Get(b: seq<bv8>): Word
    requires |b| == 8
  {
    Word(FromBytes(b))
  }

  function PutBlock(v: Block): (b: seq<bv8>)
    ensures |b| == 16
  {
    Put(v.lo) + Put(v.hi)
  }

  function GetBlock(b: seq<bv8>): Block
    requires |b| == 16
  {
    Block(Get(b[0..8]), Get(b[8..16]))
  }

  lemma GetPut(v: Block)
    ensures GetBlock(PutBlock(v)) == v
  {
    hide ToBytes, FromBytes;
    FromToBytes(v.lo.bits);
    FromToBytes(v.hi.bits);
    assert PutBlock(v)[0..8] == Put(v.lo) && PutBlock(v)[8..16] == Put(v.hi);
  }

  /** Which rounds of chain j precede line i. */
  function Rounds(i: nat, j: nat): nat
    requires j < CHAINS
  {
    (i + CHAINS - 1 - j) / CHAINS
  }

  ghost predicate ChainsAt(hw: Hw, key: Block, seed: Word, acc: seq<seq<bv8>>, i: nat) {
    |acc| == CHAINS && forall j :: 0 <= j < CHAINS ==> acc[j] == PutBlock(Chain(hw, key, seed, j, Rounds(i, j)))
  }

  lemma NextChain(hw: Hw, key: Block, seed: Word, acc: seq<seq<bv8>>, i: nat)
    requires ChainsAt(hw, key, seed, acc, i)
    ensures var j := i % CHAINS;
            ChainsAt(hw, key, seed, acc[j := PutBlock(AesEnc(hw, Chain(hw, key, seed, j, i / CHAINS),
                                                             LineAt(hw, key, seed, i)))], i + 1)
    ensures acc[i % CHAINS] == PutBlock(Chain(hw, key, seed, i % CHAINS, i / CHAINS))
  {
    hide PutBlock, LineAt, AesEnc, Chain, Rounds;
    var k := i % CHAINS;
    RoundsAt(i, k);
    ChainStep(hw, key, seed, k, i / CHAINS);
    forall j | 0 <= j < CHAINS && j != k ensures Rounds(i + 1, j) == Rounds(i, j) {
      RoundsAt(i, j);
    }
  }

  lemma RoundsAt(i: nat, j: nat)
    requires j < CHAINS
    ensures Rounds(i + 1, j) == Rounds(i, j) + if i % CHAINS == j then 1 else 0
    ensures i % CHAINS == j ==> Rounds(i, j) == i / CHAINS && CHAINS * (i / CHAINS) + j == i
  {
  }

  lemma ChainStep(hw: Hw, key: Block, seed: Word, j: nat, n: nat)
    ensures Chain(hw, key, seed, j, n + 1) ==
            AesEnc(hw, Chain(hw, key, seed, j, n), LineAt(hw, key, seed, CHAINS * n + j))
  {
    hide LineAt, AesEnc, ChainStart;
  }

  method FillRef(hw: Hw, key: Block, sc: array<Word>, seed: Word) returns (out: Word)
    requires sc.Length == 8192
    modifies sc
    ensures sc[..] == FillPad(hw, key, seed) && out == FillSeed(hw, key, seed)
  {
    hide LineAt, FillPad, Filled, AesEnc, ChainStart, PutBlock, GetBlock, FillSeed;
    var acc := [PutBlock(ChainStart(hw, seed, 0)), PutBlock(ChainStart(hw, seed, 1)),
                PutBlock(ChainStart(hw, seed, 2)), PutBlock(ChainStart(hw, seed, 3))];
    FilledNone(hw, key, seed, sc[..]);
    for i := 0 to LINES
      invariant Filled(hw, key, seed, sc[..], i)
      invariant ChainsAt(hw, key, seed, acc, i)
    {
      var line := PutBlock(LineAt(hw, key, seed, i));
      GetPut(LineAt(hw, key, seed, i));
      PutLine(hw, key, seed, sc, i, GetBlock(line));
      var j := i % CHAINS;
      NextChain(hw, key, seed, acc, i);
      GetPut(Chain(hw, key, seed, j, i / CHAINS));
      acc := acc[j := PutBlock(AesEnc(hw, GetBlock(acc[j]), GetBlock(line)))];
    }
    FilledAll(hw, key, seed, sc[..]);
    out := Finish(hw, key, seed, acc);
  }

  method Finish(hw: Hw, key: Block, ghost seed: Word, acc: seq<seq<bv8>>) returns (out: Word)
    requires ChainsAt(hw, key, seed, acc, LINES)
    ensures out == FillSeed(hw, key, seed)
  {
    hide PutBlock, GetBlock, AesEnc, Chain;
    ghost var n := LINES / CHAINS;
    GetPut(Chain(hw, key, seed, 0, n));
    GetPut(Chain(hw, key, seed, 1, n));
    GetPut(Chain(hw, key, seed, 2, n));
    GetPut(Chain(hw, key, seed, 3, n));
    assert Rounds(LINES, 0) == Rounds(LINES, 1) == Rounds(LINES, 2) == Rounds(LINES, 3) == n;
    ghost var c0, c1 := Chain(hw, key, seed, 0, n), Chain(hw, key, seed, 1, n);
    ghost var c2, c3 := Chain(hw, key, seed, 2, n), Chain(hw, key, seed, 3, n);
    var fin := acc[0];
    fin := PutBlock(AesEnc(hw, GetBlock(fin), GetBlock(acc[1])));
    GetPut(AesEnc(hw, c0, c1));
    fin := PutBlock(AesEnc(hw, GetBlock(fin), GetBlock(acc[2])));
    GetPut(AesEnc(hw, AesEnc(hw, c0, c1), c2));
    fin := PutBlock(AesEnc(hw, GetBlock(fin), GetBlock(acc[3])));
    GetPut(FoldChains(hw, c0, c1, c2, c3));
    fin := PutBlock(Twice(hw, key, GetBlock(fin)));
    GetPut(Twice(hw, key, FoldChains(hw, c0, c1, c2, c3)));
    out := Lanes(hw, GetBlock(fin));
  }
}
