/** Code sizes: fixed by the histogram, and one slot of the code region holds either back end's. */
module Sizes {
  import opened Isochron
  import opened ProgramBuilder
  import XR = X86Run
  import XE = X86Emitter
  import XC = X86Correct
  import XL = X86Layout
  import AC = A64Correct

  const ISO_CODE_BYTES: nat := 13_449
  const ISO_CODE_BYTES_AARCH64: nat := 15_568
  const BATCH: nat := 32
  const SLOT_BYTES: nat := 16_384
  const REGION_BYTES: nat := BATCH * SLOT_BYTES

  // The weighted sum the size constants are computed from, one part per group of opcodes, as
  // a pair: x86-64 bytes and A64 bytes.

  function AluBytes(prog: seq<Instr>): (nat, nat) {
    (11 * Count(prog, Add) + 11 * Count(prog, Sub) + 11 * Count(prog, Xor)
     + 15 * Count(prog, Or) + 15 * Count(prog, And) + 21 * Count(prog, Andn),
     16 * Count(prog, Add) + 16 * Count(prog, Sub) + 16 * Count(prog, Xor)
     + 20 * Count(prog, Or) + 20 * Count(prog, And) + 20 * Count(prog, Andn))
  }

  function RotBytes(prog: seq<Instr>): (nat, nat) {
    (7 * Count(prog, Rolx) + 7 * Count(prog, Rola) + 7 * Count(prog, Rorx) + 7 * Count(prog, Rora)
     + 14 * Count(prog, Vrol) + 14 * Count(prog, Vror),
     8 * Count(prog, Rolx) + 8 * Count(prog, Rola) + 8 * Count(prog, Rorx) + 8 * Count(prog, Rora)
     + 20 * Count(prog, Vrol) + 16 * Count(prog, Vror))
  }

  function MemBytes(prog: seq<Instr>): (nat, nat) {
    (28 * Count(prog, Load) + 28 * Count(prog, Store) + 63 * Count(prog, Rmw)
     + 28 * Count(prog, Loadb) + 28 * Count(prog, Storeb) + 63 * Count(prog, Rmwb),
     32 * Count(prog, Load) + 36 * Count(prog, Store) + 68 * Count(prog, Rmw)
     + 32 * Count(prog, Loadb) + 36 * Count(prog, Storeb) + 68 * Count(prog, Rmwb))
  }

  function WideBytes(prog: seq<Instr>): (nat, nat) {
    (11 * Count(prog, Mullo) + 24 * Count(prog, Mulhi) + 47 * Count(prog, Aesr),
     8 * Count(prog, Mullo) + 20 * Count(prog, Mulhi) + 52 * Count(prog, Aesr))
  }

  function Weighted(prog: seq<Instr>): (nat, nat) {
    var a, r, m, w := AluBytes(prog), RotBytes(prog), MemBytes(prog), WideBytes(prog);
    (a.0 + r.0 + m.0 + w.0, a.1 + r.1 + m.1 + w.1)
  }

  function Group(op: Op): nat {
    match ClassOf(op) case 0 => 0 case 1 => 1 case 2 => 1 case 3 => 2 case _ => 3
  }

  /** The lengths of an opcode, if it is in the group. */
  function LenIn(group: nat, op: Op): (nat,
                                       nat) { if Group(op) == group then (XR.X86Len(op), AC.A64Len(op)) else (0, 0) }

  function Plus(a: (nat, nat), b: (nat, nat)): (nat, nat) { (a.0 + b.0, a.1 + b.1) }

  lemma CountStep(prog: seq<Instr>)
    requires prog != []
    ensures forall op: Op :: Count(prog, op) ==
                             Count(prog[..|prog| - 1], op) + if prog[|prog| - 1].op == op then 1 else 0
  {
  }

  lemma AluStep(prog: seq<Instr>)
    requires prog != []
    ensures AluBytes(prog) == Plus(AluBytes(prog[..|prog| - 1]), LenIn(0, prog[|prog| - 1].op))
  {
    hide Count;
    CountStep(prog);
  }

  lemma RotStep(prog: seq<Instr>)
    requires prog != []
    ensures RotBytes(prog) == Plus(RotBytes(prog[..|prog| - 1]), LenIn(1, prog[|prog| - 1].op))
  {
    hide Count;
    CountStep(prog);
  }

  lemma MemStep(prog: seq<Instr>)
    requires prog != []
    ensures MemBytes(prog) == Plus(MemBytes(prog[..|prog| - 1]), LenIn(2, prog[|prog| - 1].op))
  {
    hide Count;
    CountStep(prog);
  }

  lemma WideStep(prog: seq<Instr>)
    requires prog != []
    ensures WideBytes(prog) == Plus(WideBytes(prog[..|prog| - 1]), LenIn(3, prog[|prog| - 1].op))
  {
    hide Count;
    CountStep(prog);
  }

  lemma NoBytes()
    ensures AluBytes([]) == RotBytes([]) == MemBytes([]) == WideBytes([]) == (0, 0)
  {
    assert forall op: Op :: Count([], op) == 0;
    hide Count;
  }

  lemma {:induction false} BodyWeighted(prog: seq<Instr>)
    ensures (XE.BodyLen(prog), AC.BodyLen(prog)) == Weighted(prog)
  {
    hide XR.X86Len, AC.A64Len, AluBytes, RotBytes, MemBytes, WideBytes, Count, LenIn;
    if prog == [] {
      NoBytes();
    } else {
      BodyWeighted(prog[..|prog| - 1]);
      AluStep(prog);
      RotStep(prog);
      MemStep(prog);
      WideStep(prog);
      InOneGroup(prog[|prog| - 1].op);
    }
  }

  lemma InOneGroup(op: Op)
    ensures Plus(Plus(LenIn(0, op), LenIn(1, op)), Plus(LenIn(2, op), LenIn(3, op)))
         == (XR.X86Len(op), AC.A64Len(op))
  {
    hide XR.X86Len, AC.A64Len, ClassOf;
  }

  lemma AluTotal(prog: seq<Instr>)
    requires forall op: Op :: Count(prog, op) == Hist(op)
    ensures AluBytes(prog) == (2688, 3456)
  {
    hide Count;
  }

  lemma RotTotal(prog: seq<Instr>)
    requires forall op: Op :: Count(prog, op) == Hist(op)
    ensures RotBytes(prog) == (672, 832)
  {
    hide Count;
  }

  lemma MemTotal(prog: seq<Instr>)
    requires forall op: Op :: Count(prog, op) == Hist(op)
    ensures MemBytes(prog) == (6335, 7240)
  {
    hide Count;
  }

  lemma WideTotal(prog: seq<Instr>)
    requires forall op: Op :: Count(prog, op) == Hist(op)
    ensures WideBytes(prog) == (3568, 3776)
  {
    hide Count;
  }

  /** Any program with the frozen histogram has the frozen size, on either back end. */
  lemma FrozenSizes(prog: seq<Instr>)
    requires forall op: Op :: Count(prog, op) == Hist(op)
    ensures |XC.Bytes(prog)| == ISO_CODE_BYTES <= SLOT_BYTES
    ensures |AC.Bytes(prog)| == ISO_CODE_BYTES_AARCH64 <= SLOT_BYTES
  {
    hide XE.BodyLen, AC.BodyLen, XC.Bytes, AC.Bytes, Count, Hist, AluBytes, RotBytes, MemBytes, WideBytes;
    BodyWeighted(prog);
    AluTotal(prog);
    RotTotal(prog);
    MemTotal(prog);
    WideTotal(prog);
    XL.CodeSize(prog);
    AC.CodeSize(prog);
  }

  /** So does every program the builder makes, from any generator. */
  lemma BuiltSizes(draw: nat -> Draw)
    ensures |XC.Bytes(Program(draw))| == ISO_CODE_BYTES
    ensures |AC.Bytes(Program(draw))| == ISO_CODE_BYTES_AARCH64
  {
    hide Program, XC.Bytes, AC.Bytes;
    HistogramFixed(draw);
    FrozenSizes(Program(draw));
  }
}
