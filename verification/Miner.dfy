/** The miner: emit every program of a batch into its own slot of one code region, then run
    them all. Calling code is a parameter, tied to the machine model of the target. */
module Miner {
  import opened Hardware
  import opened RealHardware
  import opened Isochron
  import opened Aliasing
  import opened ProgramBuilder
  import opened Sizes
  import Fill
  import X86
  import XP = X86Program
  import XF = X86Fetch
  import XC = X86Correct
  import XE = X86Emitter
  import XL = X86Layout
  import A64
  import AP = A64Program
  import AR = A64Run
  import AC = A64Correct
  import AE = A64Emitter

  datatype Target = X86Target | A64Target

  /** What stays outside the program: the target, the S-box and column mixing, the round key,
      the generator a seed starts, and calling a code pointer. */
  datatype Platform = Platform(
    target: Target,
    sbox: bv8 -> bv8,
    mix: Block -> Block,
    key: Block,
    draws: Word -> (nat -> Draw),
    call: (seq<bv8>, seq<Word>, Word) -> (Word, seq<Word>))
  {
    function Arithmetic(): Hw { Real(sbox, mix) }

    /** Called in this machine state the code can only return what `call` says. */
    ghost predicate XServes(code: seq<bv8>, pad: seq<Word>, seed: Word, x0: X86.XState) {
      && XP.Entry(Arithmetic(), key, x0) && x0.pad == pad && x0.r[6] == seed
      && (forall x: X86.XState, fuel: nat ::
            x.Valid() && XF.Run(Arithmetic(), code, 0, x0, fuel) == XF.Halted(x) ==>
              call(code, pad, seed) == (x.r[0], x.pad))
    }

    ghost predicate AServes(code: seq<bv8>, pad: seq<Word>, seed: Word, a0: A64.AState) {
      && AP.Entry(Arithmetic(), key, a0) && a0.pad == pad && a0.r[1] == seed
      && (forall a: A64.AState, fuel: nat ::
            a.Valid() && AR.Run(Arithmetic(), code, 0, a0, fuel) == AR.Halted(a) ==>
              call(code, pad, seed) == (a.r[0], a.pad))
    }

    /** There is some machine state the call is made in. */
    ghost predicate Serves(code: seq<bv8>, pad: seq<Word>, seed: Word) {
      match target
      case X86Target => exists x0: X86.XState :: XServes(code, pad, seed, x0)
      case A64Target => exists a0: A64.AState :: AServes(code, pad, seed, a0)
    }

    /** Calling code with a pad and a seed does what fetching, decoding and executing its bytes
        does, from some machine state with that pad, seed and key in their places; what the
        other registers hold is not known. */
    ghost predicate CallRuns() {
      forall code: seq<bv8>, pad: seq<Word>, seed: Word :: |pad| == 8192 ==> Serves(code, pad, seed)
    }
  }

  /** The bytes emitted for a program. */
  function CodeOf(target: Target, prog: seq<Instr>): seq<bv8> {
    match target case X86Target => XC.Bytes(prog) case A64Target => AC.Bytes(prog)
  }

  function NativeBytes(target: Target): (n: nat)
    ensures n <= SLOT_BYTES
  {
    match target case X86Target => ISO_CODE_BYTES case A64Target => ISO_CODE_BYTES_AARCH64
  }

  function ProgramFor(p: Platform, seed: Word): seq<Instr> {
    Program(p.draws(Fill.FillSeed(p.Arithmetic(), p.key, seed)))
  }

  /** The reference: fill, build, interpret. */
  function Verify(p: Platform, seed: Word): (Word, seq<Word>) {
    var hw, pad := p.Arithmetic(), Fill.FillPad(p.Arithmetic(), p.key, seed);
    (Digest(Interpreted, hw, p.key, ProgramFor(p, seed), pad, seed),
     FinalVm(Interpreted, hw, p.key, ProgramFor(p, seed), pad, seed).sc)
  }

  lemma XCall(p: Platform, prog: seq<Instr>, pad: seq<Word>, seed: Word)
    requires p.Serves(XC.Bytes(prog), pad, seed) && p.target.X86Target? && |prog| == 512 && |pad| == 8192
    ensures var hw := p.Arithmetic();
            p.call(XC.Bytes(prog), pad, seed) ==
              (Digest(Compiled, hw, p.key, prog, pad, seed), FinalVm(Compiled, hw, p.key, prog, pad, seed).sc)
  {
    hide Real, XF.Run, XP.Entry, XC.Bytes, RunLoops, Fold, Hw.Lawful, InitialRegs;
    var hw := p.Arithmetic();
    var x0: X86.XState :| p.XServes(XC.Bytes(prog), pad, seed, x0);
    RealIsLawful(p.sbox, p.mix);
    var x := XC.X86RunsProgram(hw, p.key, prog, x0);
    var fuel: nat :| XF.Run(hw, XC.Bytes(prog), 0, x0, fuel) == XF.Halted(x);
  }

  lemma ACall(p: Platform, prog: seq<Instr>, pad: seq<Word>, seed: Word)
    requires p.Serves(AC.Bytes(prog), pad, seed) && p.target.A64Target? && |prog| == 512 && |pad| == 8192
    ensures var hw := p.Arithmetic();
            p.call(AC.Bytes(prog), pad, seed) ==
              (Digest(Compiled, hw, p.key, prog, pad, seed), FinalVm(Compiled, hw, p.key, prog, pad, seed).sc)
  {
    hide Real, AR.Run, AP.Entry, AC.Bytes, RunLoops, Fold, Hw.Lawful, InitialRegs;
    var hw := p.Arithmetic();
    var a0: A64.AState :| p.AServes(AC.Bytes(prog), pad, seed, a0);
    RealIsLawful(p.sbox, p.mix);
    var a := AC.A64RunsProgram(hw, p.key, prog, a0);
    var fuel: nat :| AR.Run(hw, AC.Bytes(prog), 0, a0, fuel) == AR.Halted(a);
  }

  /** Calling the emitted bytes of a built program on its filled pad is the reference hash, on
      either target. */
  lemma CallIsVerify(p: Platform, seed: Word)
    requires p.CallRuns()
    ensures p.call(CodeOf(p.target, ProgramFor(p, seed)), Fill.FillPad(p.Arithmetic(), p.key, seed), seed) ==
            Verify(p, seed)
  {
    hide Platform.Serves, Program, Fill.FillPad, Fill.FillSeed, Real, XC.Bytes, AC.Bytes, RunLoops, Fold, InitialRegs;
    var hw, prog, pad := p.Arithmetic(), ProgramFor(p, seed), Fill.FillPad(p.Arithmetic(), p.key, seed);
    assert p.Serves(CodeOf(p.target, prog), pad, seed);
    match p.target {
      case X86Target => XCall(p, prog, pad, seed);
      case A64Target => ACall(p, prog, pad, seed);
    }
    HistogramFixed(p.draws(Fill.FillSeed(hw, p.key, seed)));
    assert forall i :: 0 <= i < |prog| ==> !Diverges(prog[i]);
    LoopsAgree(p.sbox, p.mix, p.key, prog, Vm(InitialRegs(hw, seed), pad), LOOPS);
  }

  // ----- there are such platforms -----

  ghost function XEntry(key: Block, pad: seq<Word>, seed: Word): (x: X86.XState)
    requires |pad| == 8192
    ensures x.Valid() && (forall hw: Hw :: XP.Entry(hw, key, x)) && x.pad == pad && x.r[6] == seed
  {
    var w, b := Word(0), Block(Word(0), Word(0));
    X86.XState(seq(16, i => if i == 6 then seed else w), b, b, pad, w, w, key, [], X86.Undefined, true)
  }

  ghost function AEntry(key: Block, pad: seq<Word>, seed: Word): (a: A64.AState)
    requires |pad| == 8192
    ensures a.Valid() && (forall hw: Hw :: AP.Entry(hw, key, a)) && a.pad == pad && a.r[1] == seed
  {
    var w, b := Word(0), Block(Word(0), Word(0));
    A64.AState(seq(31, i => if i == 1 then seed else w), seq(32, i => b), pad, w, w, key, [], A64.Undefined, true)
  }

  /** What a run from the entry state halts with, if it halts. */
  ghost function XAnswer(hw: Hw, key: Block, code: seq<bv8>, pad: seq<Word>, seed: Word): (Word, seq<Word>)
    requires |pad| == 8192
  {
    var x0 := XEntry(key, pad, seed);
    if exists fuel: nat :: XF.Run(hw, code, 0, x0, fuel).Halted? then
      var fuel: nat :| XF.Run(hw, code, 0, x0, fuel).Halted?;
      var x := XF.Run(hw, code, 0, x0, fuel).st;
      (x.r[0], x.pad)
    else (seed, pad)
  }

  ghost function AAnswer(hw: Hw, key: Block, code: seq<bv8>, pad: seq<Word>, seed: Word): (Word, seq<Word>)
    requires |pad| == 8192
  {
    var a0 := AEntry(key, pad, seed);
    if exists fuel: nat :: AR.Run(hw, code, 0, a0, fuel).Halted? then
      var fuel: nat :| AR.Run(hw, code, 0, a0, fuel).Halted?;
      var a := AR.Run(hw, code, 0, a0, fuel).st;
      (a.r[0], a.pad)
    else (seed, pad)
  }

  /** More fuel does not change where a run has halted. */
  lemma {:induction false} XHaltsOnce(hw: Hw, code: seq<bv8>, pc: nat, x: X86.XState, f: nat, g: nat)
    requires x.Valid() && XF.Run(hw, code, pc, x, f).Halted? && XF.Run(hw, code, pc, x, g).Halted?
    ensures XF.Run(hw, code, pc, x, f) == XF.Run(hw, code, pc, x, g)
    decreases f
  {
    hide XF.StepAt;
    var o := XF.StepAt(hw, code, pc, x);
    if o.Running? {
      XHaltsOnce(hw, code, o.pc, o.st, f - 1, g - 1);
    }
  }

  lemma {:induction false} AHaltsOnce(hw: Hw, code: seq<bv8>, pc: nat, a: A64.AState, f: nat, g: nat)
    requires a.Valid() && AR.Run(hw, code, pc, a, f).Halted? && AR.Run(hw, code, pc, a, g).Halted?
    ensures AR.Run(hw, code, pc, a, f) == AR.Run(hw, code, pc, a, g)
    decreases f
  {
    hide AR.StepAt;
    var o := AR.StepAt(hw, code, pc, a);
    if o.Running? {
      AHaltsOnce(hw, code, o.pc, o.st, f - 1, g - 1);
    }
  }

  lemma XAnswers(hw: Hw, key: Block, code: seq<bv8>, pad: seq<Word>, seed: Word, x: X86.XState, fuel: nat)
    requires |pad| == 8192 && x.Valid() && XF.Run(hw, code, 0, XEntry(key, pad, seed), fuel) == XF.Halted(x)
    ensures XAnswer(hw, key, code, pad, seed) == (x.r[0], x.pad)
  {
    hide XF.Run, XEntry;
    var x0 := XEntry(key, pad, seed);
    var f: nat :| XF.Run(hw, code, 0, x0, f).Halted? && XAnswer(hw, key, code, pad, seed) ==
      (XF.Run(hw, code, 0, x0, f).st.r[0], XF.Run(hw, code, 0, x0, f).st.pad);
    XHaltsOnce(hw, code, 0, x0, f, fuel);
  }

  lemma AAnswers(hw: Hw, key: Block, code: seq<bv8>, pad: seq<Word>, seed: Word, a: A64.AState, fuel: nat)
    requires |pad| == 8192 && a.Valid() && AR.Run(hw, code, 0, AEntry(key, pad, seed), fuel) == AR.Halted(a)
    ensures AAnswer(hw, key, code, pad, seed) == (a.r[0], a.pad)
  {
    hide AR.Run, AEntry;
    var a0 := AEntry(key, pad, seed);
    var f: nat :| AR.Run(hw, code, 0, a0, f).Halted? && AAnswer(hw, key, code, pad, seed) ==
      (AR.Run(hw, code, 0, a0, f).st.r[0], AR.Run(hw, code, 0, a0, f).st.pad);
    AHaltsOnce(hw, code, 0, a0, f, fuel);
  }

  /** A call that answers as the machine does. */
  ghost function Answering(target: Target, sbox: bv8 -> bv8, mix: Block -> Block, key: Block): (seq<bv8>, seq<Word>,
      Word) -> (Word, seq<Word>) {
    (code: seq<bv8>, pad: seq<Word>, seed: Word) =>
      if |pad| != 8192 then (seed, pad)
      else if target.X86Target? then XAnswer(Real(sbox, mix), key, code, pad, seed)
      else AAnswer(Real(sbox, mix), key, code, pad, seed)
  }

  /** The assumption about calls can be met, on either target, whatever the rest of the
      platform is. */
  lemma SomePlatformCalls(target: Target, sbox: bv8 -> bv8, mix: Block -> Block, key: Block,
                          draws: Word -> (nat -> Draw))
    ensures Platform(target, sbox, mix, key, draws, Answering(target, sbox, mix, key)).CallRuns()
  {
    hide Real, XF.Run, AR.Run, XAnswer, AAnswer, XEntry, AEntry, XP.Entry, AP.Entry;
    var p := Platform(target, sbox, mix, key, draws, Answering(target, sbox, mix, key));
    var hw := p.Arithmetic();
    forall code: seq<bv8>, pad: seq<Word>, seed: Word | |pad| == 8192 ensures p.Serves(code, pad, seed) {
      match target {
        case X86Target =>
          var x0 := XEntry(key, pad, seed);
          forall x: X86.XState, fuel: nat | x.Valid() && XF.Run(hw, code, 0, x0, fuel) == XF.Halted(x)
            ensures p.call(code, pad, seed) == (x.r[0], x.pad)
          {
            XAnswers(hw, key, code, pad, seed, x, fuel);
          }
          assert p.XServes(code, pad, seed, x0);
        case A64Target =>
          var a0 := AEntry(key, pad, seed);
          forall a: A64.AState, fuel: nat | a.Valid() && AR.Run(hw, code, 0, a0, fuel) == AR.Halted(a)
            ensures p.call(code, pad, seed) == (a.r[0], a.pad)
          {
            AAnswers(hw, key, code, pad, seed, a, fuel);
          }
          assert p.AServes(code, pad, seed, a0);
      }
    }
  }

  /** Slot j of the region: where the j-th program of a batch goes. */
  function SlotStart(j: nat): nat { j * SLOT_BYTES }

  lemma SlotsApart(i: nat, j: nat)
    requires i < j < BATCH
    ensures forall target :: SlotStart(i) + NativeBytes(target) <= SlotStart(i) + SLOT_BYTES <= SlotStart(j)
    ensures forall target :: SlotStart(j) + NativeBytes(target) <= REGION_BYTES
  {
  }

  predicate Separate(pads: seq<array<Word>>) {
    && (forall j :: 0 <= j < |pads| ==> pads[j].Length == 8192)
    && (forall i, j :: 0 <= i < j < |pads| ==> pads[i] != pads[j])
  }

  method StorePad(a: array<Word>, s: seq<Word>)
    requires a.Length == |s|
    modifies a
    ensures a[..] == s
  {
    forall w | 0 <= w < a.Length {
      a[w] := s[w];
    }
  }

  class Miner {
    const p: Platform
    const region: array<bv8>
    /** Whether the code region is held writable; false after a protection change failed. */
    var ready: bool

    ghost predicate Valid()
      reads this
    {
      p.CallRuns() && region.Length == REGION_BYTES
    }

    constructor (p: Platform)
      requires p.CallRuns()
      ensures Valid() && ready && this.p == p && fresh(region)
    {
      this.p := p;
      region := new bv8[REGION_BYTES];
      ready := true;
    }

    /** Slot j holds the code for a seed. */
    ghost predicate Holds(j: nat, seed: Word)
      reads region
      requires region.Length == REGION_BYTES && j < BATCH
    {
      region[SlotStart(j)..SlotStart(j) + NativeBytes(p.target)] == CodeOf(p.target, ProgramFor(p, seed))
    }

    /** Fill one pad, build its program and emit it into slot j. */
    method Prepare(pad: array<Word>, j: nat, seed: Word)
      requires Valid() && pad.Length == 8192 && j < BATCH
      modifies pad, region
      ensures pad[..] == Fill.FillPad(p.Arithmetic(), p.key, seed)
      ensures Holds(j, seed)
      ensures region[..SlotStart(j)] == old(region[..SlotStart(j)])
    {
      hide Platform.CallRuns, Fill.FillPad, Fill.FillSeed, Real, XC.Bytes, AC.Bytes, Program, XE.BodyLen, AC.BodyLen;
      var progSeed := Fill.Fill(p.Arithmetic(), p.key, pad, seed);
      var prog := BuildProgram(p.draws(progSeed));
      BuiltSizes(p.draws(progSeed));
      ghost var filled := pad[..];
      match p.target {
        case X86Target =>
          XL.CodeSize(prog[..]);
          var n := XE.Emit(prog[..], region, SlotStart(j), ISO_CODE_BYTES);
        case A64Target =>
          AC.CodeSize(prog[..]);
          var n := AE.Emit(prog[..], region, SlotStart(j), ISO_CODE_BYTES_AARCH64);
      }
      assert pad[..] == filled;
    }

    ghost predicate Prepared(pads: seq<array<Word>>, seeds: seq<Word>, from: nat, to: nat)
      reads region, pads
      requires region.Length == REGION_BYTES && from <= to <= |seeds| <= |pads| && |seeds| <= BATCH
    {
      forall j :: from <= j < to ==>
        Holds(j, seeds[j]) && pads[j][..] == Fill.FillPad(p.Arithmetic(), p.key, seeds[j])
    }

    method PrepareAll(pads: seq<array<Word>>, seeds: seq<Word>)
      requires Valid() && |seeds| <= BATCH && |seeds| <= |pads| && Separate(pads)
      modifies pads, region
      ensures Prepared(pads, seeds, 0, |seeds|)
      ensures forall j :: |seeds| <= j < |pads| ==> pads[j][..] == old(pads[j][..])
    {
      hide Platform.CallRuns, Fill.FillPad, CodeOf, NativeBytes, ProgramFor, Real;
      for j := 0 to |seeds|
        invariant Prepared(pads, seeds, 0, j)
        invariant forall i :: j <= i < |pads| ==> pads[i][..] == old(pads[i][..])
      {
        ghost var was, code := seq(|pads|, i requires 0 <= i < |pads| reads pads => pads[i][..]),
            region[..SlotStart(j)];
        Prepare(pads[j], j, seeds[j]);
        forall i | 0 <= i < j ensures Holds(i, seeds[i]) {
          SlotsApart(i, j);
          assert region[..SlotStart(j)] == code;
          assert region[SlotStart(i)..SlotStart(i) + NativeBytes(p.target)] ==
                 code[SlotStart(i)..SlotStart(i) + NativeBytes(p.target)];
        }
        assert forall i :: 0 <= i < |pads| && i != j ==> pads[i][..] == was[i];
      }
    }

    method RunAll(pads: seq<array<Word>>, seeds: seq<Word>, out: array<Word>)
      requires Valid() && |seeds| <= BATCH && |seeds| <= |pads| && Separate(pads) && out.Length == |seeds|
      requires out !in pads && Prepared(pads, seeds, 0, |seeds|)
      modifies pads, out
      ensures forall j :: 0 <= j < |seeds| ==> (out[j], pads[j][..]) == Verify(p, seeds[j])
      ensures forall j :: |seeds| <= j < |pads| ==> pads[j][..] == old(pads[j][..])
    {
      hide Platform.CallRuns, Fill.FillPad, CodeOf, NativeBytes, ProgramFor, Real, Verify;
      for j := 0 to |seeds|
        invariant Prepared(pads, seeds, j, |seeds|)
        invariant forall i :: 0 <= i < j ==> (out[i], pads[i][..]) == Verify(p, seeds[i])
        invariant forall i :: |seeds| <= i < |pads| ==> pads[i][..] == old(pads[i][..])
      {
        assert Holds(j, seeds[j]);
        CallIsVerify(p, seeds[j]);
        VerifyPad(p, seeds[j]);
        var r := p.call(region[SlotStart(j)..SlotStart(j) + NativeBytes(p.target)], pads[j][..], seeds[j]);
        StorePad(pads[j], r.1);
        out[j] := r.0;
      }
    }

    /** Emit all, then run all: for every seed of the batch the reference digest and the
        reference pad; pads past the batch are untouched. When the region cannot be made
        executable nothing runs; when it cannot be made writable again the miner is spent. */
    method MineBatch(pads: seq<array<Word>>, seeds: seq<Word>, out: array<Word>, sealed: bool, unsealed: bool)
        returns (ok: bool)
      requires Valid() && ready && |seeds| <= BATCH && |seeds| <= |pads| && Separate(pads) && out.Length == |seeds|
      requires out !in pads
      modifies this, region, pads, out
      ensures Valid() && ok == (sealed && unsealed) && ready == ok
      ensures sealed ==> forall j :: 0 <= j < |seeds| ==> (out[j], pads[j][..]) == Verify(p, seeds[j])
      ensures !sealed ==> out[..] == old(out[..])
      ensures forall j :: |seeds| <= j < |pads| ==> pads[j][..] == old(pads[j][..])
    {
      hide Platform.CallRuns, Prepared, Verify;
      ready := false;
      PrepareAll(pads, seeds);
      if !sealed {
        return false;
      }
      RunAll(pads, seeds, out);
      if !unsealed {
        return false;
      }
      ready := true;
      ok := true;
    }
  }

  lemma VerifyPad(p: Platform, seed: Word)
    ensures |Verify(p, seed).1| == 8192
  {
    hide Fill.FillPad, ProgramFor, RunLoops, Digest, Real;
  }
}
