/** The A64 words laid out as bytes, fetched, decoded and executed. */
module A64Run {
  import opened Octets
  import opened Hardware
  import opened Isochron
  import opened A64
  import opened A64Bytes

  function EncodeAll(code: seq<AInstr>): (b: seq<bv8>)
    ensures |b| == 4 * |code|
  {
    if code == [] then [] else EncodeAll(code[..|code| - 1]) + Le32(Encode(code[|code| - 1]))
  }

  lemma {:induction false} EncodeAppend(a: seq<AInstr>, b: seq<AInstr>)
    ensures EncodeAll(a + b) == EncodeAll(a) + EncodeAll(b)
  {
    hide Encode, Le32;
    if b == [] {
      assert a + b == a;
    } else {
      var n := |b| - 1;
      EncodeAppend(a, b[..n]);
      assert (a + b)[..|a + b| - 1] == a + b[..n];
      Associate(EncodeAll(a), EncodeAll(b[..n]), Le32(Encode(b[n])));
    }
  }

  type Machine = st: AState | st.Valid() ghost witness Blank()

  ghost function Blank(): AState {
    var w, b := Word(0), Block(Word(0), Word(0));
    AState(seq(31, _ => w), seq(32, _ => b), seq(8192, _ => w), w, w, b, [], Undefined, true)
  }

  datatype Outcome = Running(pc: nat, st: Machine) | Halted(st: Machine) | Faulted

  function Goto(target: int, st: Machine): Outcome {
    if target < 0 then Faulted else Running(target, st)
  }

  function Fetch(bytes: seq<bv8>, pc: nat): Decoded {
    if pc + 4 <= |bytes| then Decode(Of32(bytes[pc..])) else Bad
  }

  /** One instruction at the byte address `pc`; a branch counts words from itself. */
  function StepAt(hw: Hw, bytes: seq<bv8>, pc: nat, st: Machine): Outcome {
    match Fetch(bytes, pc)
    case Bad => Faulted
    case Decoded(i) =>
      if i.Ret? then Halted(st)
      else if i.BLt? then
        if st.lt.Undefined? then Faulted
        else Goto(if st.lt.value then pc + 4 * i.off else pc + 4, st)
      else
        var st' := Exec(hw, i, st);
        if st'.ok then Running(pc + 4, st') else Faulted
  }

  function Run(hw: Hw, bytes: seq<bv8>, pc: nat, st: Machine, fuel: nat): Outcome
    decreases fuel
  {
    if fuel == 0 then Running(pc, st)
    else
      var o := StepAt(hw, bytes, pc, st);
      if o.Running? then Run(hw, bytes, o.pc, o.st, fuel - 1) else o
  }

  /** Some number of instructions leads from one machine configuration to another. */
  ghost predicate Reaches(hw: Hw, bytes: seq<bv8>, pc: nat, st: AState, pc': nat, st': AState) {
    st.Valid() && st'.Valid() && exists fuel: nat :: Run(hw, bytes, pc, st, fuel) == Running(pc', st')
  }

  lemma {:induction false} RunSplit(hw: Hw, bytes: seq<bv8>, pc: nat, st: AState, f: nat, g: nat)
    requires st.Valid() && Run(hw, bytes, pc, st, f).Running?
    ensures var o := Run(hw, bytes, pc, st, f);
            Run(hw, bytes, pc, st, f + g) == Run(hw, bytes, o.pc, o.st, g)
    decreases f
  {
    hide StepAt;
    if f > 0 {
      var o := StepAt(hw, bytes, pc, st);
      RunSplit(hw, bytes, o.pc, o.st, f - 1, g);
    }
  }

  lemma ReachTrans(hw: Hw, bytes: seq<bv8>, pc: nat, st: AState, pc1: nat, st1: AState, pc2: nat, st2: AState)
    requires Reaches(hw, bytes, pc, st, pc1, st1) && Reaches(hw, bytes, pc1, st1, pc2, st2)
    ensures Reaches(hw, bytes, pc, st, pc2, st2)
  {
    hide StepAt;
    var f: nat :| Run(hw, bytes, pc, st, f) == Running(pc1, st1);
    var g: nat :| Run(hw, bytes, pc1, st1, g) == Running(pc2, st2);
    RunSplit(hw, bytes, pc, st, f, g);
  }

  lemma ReachStep(hw: Hw, bytes: seq<bv8>, pc: nat, st: AState, pc': nat, st': AState)
    requires st.Valid() && st'.Valid() && StepAt(hw, bytes, pc, st) == Running(pc', st')
    ensures Reaches(hw, bytes, pc, st, pc', st')
  {
    hide StepAt;
    assert Run(hw, bytes, pc', st', 0) == Running(pc', st');
    assert Run(hw, bytes, pc, st, 1) == Running(pc', st');
  }

  lemma ReachHere(hw: Hw, bytes: seq<bv8>, pc: nat, st: AState)
    requires st.Valid()
    ensures Reaches(hw, bytes, pc, st, pc, st)
  {
    hide StepAt;
    assert Run(hw, bytes, pc, st, 0) == Running(pc, st);
  }

  lemma Halts(hw: Hw, bytes: seq<bv8>, pc: nat, st: AState, pc': nat, st': AState)
    requires Reaches(hw, bytes, pc, st, pc', st') && StepAt(hw, bytes, pc', st') == Halted(st')
    ensures exists fuel: nat :: Run(hw, bytes, pc, st, fuel) == Halted(st')
  {
    hide StepAt;
    var f: nat :| Run(hw, bytes, pc, st, f) == Running(pc', st');
    RunSplit(hw, bytes, pc, st, f, 1);
    assert Run(hw, bytes, pc', st', 1) == Halted(st');
  }

  // ----- straight-line stretches -----

  predicate Plain(code: seq<AInstr>) {
    forall k :: 0 <= k < |code| ==> Encodable(code[k]) && !code[k].BLt? && !code[k].Ret?
  }

  lemma OkBefore(hw: Hw, i: AInstr, st: AState)
    requires st.Valid() && Exec(hw, i, st).ok
    ensures st.ok
  {
  }

  lemma {:induction false} OkBeforeAll(hw: Hw, code: seq<AInstr>, st: AState)
    requires st.Valid() && ExecAll(hw, code, st).ok
    ensures st.ok
  {
    hide Exec;
    if code != [] {
      OkBeforeAll(hw, code[1..], Exec(hw, code[0], st));
      OkBefore(hw, code[0], st);
    }
  }

  lemma SliceAt<T>(a: seq<T>, b: seq<T>)
    ensures (a + b)[|a|..] == b
  {
  }

  lemma EncodeOne(i: AInstr)
    ensures EncodeAll([i]) == Le32(Encode(i))
  {
    hide Encode, Le32;
    assert [i][..0] == [];
    assert EncodeAll([]) + Le32(Encode(i)) == Le32(Encode(i));
  }

  /** The word after a stretch of code decodes to the instruction that follows it. */
  lemma FetchNext(front: seq<AInstr>, i: AInstr, back: seq<AInstr>)
    requires Encodable(i)
    ensures Fetch(EncodeAll(front + [i] + back), 4 * |front|) == Decoded(i)
  {
    hide Encode, Decode, EncodeAll, Le32, Of32;
    EncodeAppend(front + [i], back);
    EncodeAppend(front, [i]);
    EncodeOne(i);
    Associate(EncodeAll(front), Le32(Encode(i)), EncodeAll(back));
    SliceAt(EncodeAll(front), Le32(Encode(i)) + EncodeAll(back));
    RoundTrip32(Encode(i), EncodeAll(back));
    DecodeEncode(i);
  }

  /** Running a stretch without branches executes its instructions in order. */
  lemma {:induction false} RunStraight(hw: Hw, front: seq<AInstr>, mid: seq<AInstr>, back: seq<AInstr>, st: AState)
    requires st.Valid() && Plain(mid) && ExecAll(hw, mid, st).ok
    ensures Reaches(hw, EncodeAll(front + mid + back), 4 * |front|, st, 4 * |front + mid|, ExecAll(hw, mid, st))
    decreases |mid|
  {
    hide Exec, Encode, Decode, EncodeAll, Run, Encodable, Fetch;
    var bytes := EncodeAll(front + mid + back);
    if mid == [] {
      assert front + mid == front;
      ReachHere(hw, bytes, 4 * |front|, st);
    } else {
      var i, rest := mid[0], mid[1..];
      var st1 := Exec(hw, i, st);
      assert mid == [i] + rest;
      assert front + mid + back == front + [i] + (rest + back) == (front + [i]) + rest + back;
      assert front + mid == (front + [i]) + rest;
      OkBeforeAll(hw, rest, st1);
      FetchNext(front, i, rest + back);
      ReachStep(hw, bytes, 4 * |front|, st, 4 * |front + [i]|, st1);
      RunStraight(hw, front + [i], rest, back, st1);
      ReachTrans(hw, bytes, 4 * |front|, st, 4 * |front + [i]|, st1, 4 * |front + mid|, ExecAll(hw, mid, st));
    }
  }
}
