/** The two back ends against each other and against the interpreter. */
module BackEnds {
  import opened Hardware
  import opened RealHardware
  import opened Isochron
  import opened Aliasing
  import X86
  import XK = X86Compile
  import XP = X86Program
  import XF = X86Fetch
  import XC = X86Correct
  import A64
  import AK = A64Compile
  import AP = A64Program
  import AR = A64Run
  import AC = A64Correct

  /** Same pad, same seed, same round key. */
  ghost predicate SameInputs(x: X86.XState, a: A64.AState) {
    x.Valid() && a.Valid() && x.pad == a.pad && x.r[6] == a.r[1]
  }

  /** The emitted bytes, run from their first, come to the return in this state. */
  ghost predicate XHalts(hw: Hw, prog: seq<Instr>, x0: X86.XState, x: X86.XState)
    requires x0.Valid() && x.Valid() && |prog| == 512
  {
    exists fuel: nat :: XF.Run(hw, XC.Bytes(prog), 0, x0, fuel) == XF.Halted(x)
  }

  ghost predicate AHalts(hw: Hw, prog: seq<Instr>, a0: A64.AState, a: A64.AState)
    requires a0.Valid() && a.Valid() && |prog| == 512
  {
    exists fuel: nat :: AR.Run(hw, AC.Bytes(prog), 0, a0, fuel) == AR.Halted(a)
  }

  /** The digest and the pad the interpreter leaves. */
  ghost predicate Leaves(hw: Hw, key: Block, prog: seq<Instr>, sc: seq<Word>, seed: Word, digest: Word, pad: seq<Word>)
    requires |sc| == 8192
  {
    digest == Digest(Interpreted, hw, key, prog, sc, seed) && pad == FinalVm(Interpreted, hw, key, prog, sc, seed).sc
  }

  /** Both machines, run from their first byte, are at the top of their loop, or past it after
      the last iteration. */
  ghost predicate BothAt(hw: Hw, prog: seq<Instr>, x0: X86.XState, a0: A64.AState, n: nat, x: X86.XState,
                         a: A64.AState) {
    && XF.Reaches(hw, XC.Bytes(prog), 0, x0, if n < LOOPS then XC.Top() else XC.LoopExit(prog), x)
    && AR.Reaches(hw, AC.Bytes(prog), 0, a0, if n < LOOPS then AC.Top() else AC.BranchAt(prog) + 4, a)
  }

  /** After every iteration, and so at the end, the eight virtual registers and the pad are the
      same on both, whether or not a slot has `d == s`. */
  lemma IterationsAgree(hw: Hw, key: Block, prog: seq<Instr>, x0: X86.XState, a0: A64.AState, n: nat)
      returns (x: X86.XState, a: A64.AState)
    requires hw.Lawful() && |prog| == 512 && n <= LOOPS
    requires XP.Entry(hw, key, x0) && AP.Entry(hw, key, a0) && SameInputs(x0, a0)
    ensures x.Valid() && a.Valid() && BothAt(hw, prog, x0, a0, n, x, a)
    ensures XK.View(x) == AK.View(a)
  {
    hide Hw.Lawful, XF.Reaches, AR.Reaches, XC.Bytes, AC.Bytes, RunLoops, XC.Top, AC.Top, XC.LoopExit, AC.BranchAt,
      InitialRegs,
      XK.View, AK.View, XK.Pinned, AK.Pinned;
    x := XC.AfterIterations(hw, key, prog, x0, n);
    a := AC.AfterIterations(hw, key, prog, a0, n);
  }

  /** For every program, pad, seed and key the two emitted byte strings run to their return and
      leave the same digest and the same pad, whether or not a slot has `d == s`. */
  lemma BackEndsAgree(hw: Hw, key: Block, prog: seq<Instr>, x0: X86.XState, a0: A64.AState)
      returns (x: X86.XState, a: A64.AState)
    requires hw.Lawful() && |prog| == 512
    requires XP.Entry(hw, key, x0) && AP.Entry(hw, key, a0) && SameInputs(x0, a0)
    ensures x.Valid() && a.Valid()
    ensures XHalts(hw, prog, x0, x) && AHalts(hw, prog, a0, a)
    ensures x.r[0] == a.r[0] && x.pad == a.pad
  {
    hide Hw.Lawful, XF.Run, AR.Run, XC.Bytes, AC.Bytes, Digest, FinalVm;
    x := XC.X86RunsProgram(hw, key, prog, x0);
    a := AC.A64RunsProgram(hw, key, prog, a0);
  }

  /** On two's-complement words, whatever the S-box and the column mixing: a program without
      diverging slots leaves the interpreter's digest and the interpreter's pad on both. */
  lemma BackEndsMatchInterpreter(sbox: bv8 -> bv8, mix: Block -> Block, key: Block, prog: seq<Instr>,
                                 x0: X86.XState, a0: A64.AState)
      returns (x: X86.XState, a: A64.AState)
    requires |prog| == 512 && forall i :: 0 <= i < |prog| ==> !Diverges(prog[i])
    requires XP.Entry(Real(sbox, mix), key, x0) && AP.Entry(Real(sbox, mix), key, a0) && SameInputs(x0, a0)
    ensures x.Valid() && a.Valid()
    ensures XHalts(Real(sbox, mix), prog, x0, x) && Leaves(Real(sbox, mix), key, prog, x0.pad, x0.r[6], x.r[0], x.pad)
    ensures AHalts(Real(sbox, mix), prog, a0, a) && Leaves(Real(sbox, mix), key, prog, a0.pad, a0.r[1], a.r[0], a.pad)
  {
    hide Hw.Lawful, XF.Run, AR.Run, XC.Bytes, AC.Bytes, Real, RunLoops, Fold, InitialRegs;
    var hw := Real(sbox, mix);
    RealIsLawful(sbox, mix);
    x := XC.X86RunsProgram(hw, key, prog, x0);
    a := AC.A64RunsProgram(hw, key, prog, a0);
    LoopsAgree(sbox, mix, key, prog, Vm(InitialRegs(hw, x0.r[6]), x0.pad), LOOPS);
  }
}
