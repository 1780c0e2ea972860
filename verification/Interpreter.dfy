/** The interpreter as it runs: registers in a local array, the pad updated in place. */
module Interpreter {
  import opened Hardware
  import opened Isochron

  ghost predicate Buffers(r: array<Word>, sc: array<Word>) {
    r.Length == 8 && sc.Length == 8192 && r != sc
  }

  ghost function View(r: array<Word>, sc: array<Word>): (vm: Vm)
    requires Buffers(r, sc)
    reads r, sc
    ensures vm.Valid()
  {
    Vm(r[..], sc[..])
  }

  method MixWord(hw: Hw, d: Reg, o: nat, r: array<Word>, sc: array<Word>)
    requires Buffers(r, sc) && hw.MaskLaws() && o < SCRATCH_BYTES
    modifies r, sc
    ensures View(r, sc) == RmwStep(hw, old(View(r, sc)), d, o)
  {
    var v := hw.add(sc[o / 8], r[d]);
    sc[o / 8] := v;
    r[d] := hw.xor(r[d], sc[AddrOf(hw, v, C2) / 8]);
  }

  method MixWordB(hw: Hw, d: Reg, o: nat, r: array<Word>, sc: array<Word>)
    requires Buffers(r, sc) && hw.MaskLaws() && o < SCRATCH_BYTES
    modifies r, sc
    ensures View(r, sc) == RmwbStep(hw, old(View(r, sc)), d, o)
  {
    var v := hw.xor(sc[o / 8], r[d]);
    sc[o / 8] := v;
    r[d] := hw.add(r[d], sc[AddrOf(hw, v, C1) / 8]);
  }

  method EncryptLine(hw: Hw, key: Block, d: Reg, o: nat, r: array<Word>, sc: array<Word>)
    requires Buffers(r, sc) && o < SCRATCH_BYTES && o % 16 == 0
    modifies r, sc
    ensures View(r, sc) == AesStep(hw, key, old(View(r, sc)), d, o)
  {
    var w := o / 8;
    var b := AesEnc(hw, Block(sc[w], sc[Or1(w)]), key);
    sc[w] := b.lo;
    sc[Or1(w)] := b.hi;
    r[d] := hw.xor(r[d], sc[w]);
  }

  /** One slot, in place. The masks keep every index inside the pad. */
  method ExecuteSlot(hw: Hw, key: Block, slot: Instr, r: array<Word>, sc: array<Word>)
    requires Buffers(r, sc) && hw.MaskLaws()
    modifies r, sc
    ensures View(r, sc) == Step(hw, key, slot, old(View(r, sc)))
  {
    var d, s, k := slot.d, slot.s, AddrKey(slot.op, slot.imm);
    match slot.op {
      case Load | Loadb =>
        r[d] := hw.xor(r[d], sc[AddrOf(hw, r[s], k) / 8]);
      case Store | Storeb =>
        var w := AddrOf(hw, r[d], k) / 8;
        sc[w] := hw.add(sc[w], r[s]);
      case Rmw => MixWord(hw, d, AddrOf(hw, r[s], k), r, sc);
      case Rmwb => MixWordB(hw, d, AddrOf(hw, r[s], k), r, sc);
      case Aesr => EncryptLine(hw, key, d, LineOf(hw, r[s], k), r, sc);
      case _ => r[d] := AluResult(hw, slot.op, r[d], r[s], slot.imm);
    }
  }

  /** All slots of one iteration. */
  method ExecuteSlots(hw: Hw, key: Block, prog: seq<Instr>, r: array<Word>, sc: array<Word>)
    requires Buffers(r, sc) && hw.MaskLaws()
    modifies r, sc
    ensures View(r, sc) == RunSlots(Interpreted, hw, key, prog, old(View(r, sc)))
  {
    ghost var vm := View(r, sc);
    for i := 0 to |prog|
      invariant View(r, sc) == RunSlots(Interpreted, hw, key, prog[..i], vm)
    {
      ExecuteSlot(hw, key, prog[i], r, sc);
      assert prog[..i + 1][..i] == prog[..i];
    }
    assert prog[..|prog|] == prog;
  }

  method Initialise(hw: Hw, seed: Word) returns (r: array<Word>)
    ensures fresh(r) && r.Length == 8 && r[..] == InitialRegs(hw, seed)
  {
    r := new Word[8](_ => Word(0));
    for i := 0 to 8
      invariant forall j :: 0 <= j < i ==> r[j] == InitialReg(hw, seed, j)
    {
      r[i] := InitialReg(hw, seed, i);
    }
  }

  /** The whole run: leaves the final pad in `sc` and returns the digest. */
  method Interpret(hw: Hw, key: Block, prog: seq<Instr>, sc: array<Word>, seed: Word) returns (out: Word)
    requires sc.Length == 8192 && hw.MaskLaws()
    modifies sc
    ensures sc[..] == FinalVm(Interpreted, hw, key, prog, old(sc[..]), seed).sc
    ensures out == Digest(Interpreted, hw, key, prog, old(sc[..]), seed)
  {
    var r := Initialise(hw, seed);
    ghost var vm := View(r, sc);
    var counter := hw.Zero();
    for lp := 0 to LOOPS
      invariant Buffers(r, sc) && counter == hw.Count(lp)
      invariant View(r, sc) == RunLoops(Interpreted, hw, key, prog, vm, lp)
    {
      ExecuteSlots(hw, key, prog, r, sc);
      r[0] := hw.xor(r[0], counter);
      counter := hw.add(counter, hw.zx(1));
    }
    out := hw.Zero();
    for i := 0 to 8
      invariant out == Fold(hw, r[..], i)
    {
      out := hw.xor(out, r[i]);
    }
  }
}
