/** Fetch, decode and execute over the emitted bytes. */
module X86Fetch {
  import opened Octets
  import opened Hardware
  import opened Isochron
  import opened X86
  import opened X86Bytes
  import opened X86Compile
  import opened X86Program
  import opened X86Run

  type Machine = st: XState | st.Valid() ghost witness Blank()

  ghost function Blank(): XState {
    var w, b := Word(0), Block(Word(0), Word(0));
    XState(seq(16, _ => w), b, b, seq(8192, _ => w), w, w, b, [], Undefined, true)
  }

  datatype Outcome = Running(pc: nat, st: Machine) | Halted(st: Machine) | Faulted

  function Goto(target: int, st: Machine): Outcome {
    if target < 0 then Faulted else Running(target, st)
  }

  /** One instruction at `pc`. Flags are dead after the jump that reads them. */
  function StepAt(hw: Hw, bytes: seq<bv8>, pc: nat, st: Machine): Outcome
  {
    if pc > |bytes| then Faulted
    else
      match Decode(bytes[pc..])
      case Bad => Faulted
      case Decoded(i, len) =>
        if i.Ret? then Halted(st)
        else if i.Jl? then
          if st.lt.Undefined? then Faulted
          else Goto(pc + len + (if st.lt.value then i.rel else 0), st.(lt := Undefined))
        else
          var st' := Exec(hw, i, st);
          if st'.ok then Running(pc + len, st') else Faulted
  }

  function Run(hw: Hw, bytes: seq<bv8>, pc: nat, st: Machine, fuel: nat): Outcome
    decreases fuel
  {
    if fuel == 0 then Running(pc, st)
    else
      var o := StepAt(hw, bytes, pc, st);
      if o.Running? then Run(hw, bytes, o.pc, o.st, fuel - 1) else o
  }

  /** Some number of instructions leads from one machine configuration to another. */
  ghost predicate Reaches(hw: Hw, bytes: seq<bv8>, pc: nat, st: XState, pc': nat, st': XState) {
    st.Valid() && st'.Valid() && exists fuel: nat :: Run(hw, bytes, pc, st, fuel) == Running(pc', st')
  }

  lemma {:induction false} RunSplit(hw: Hw, bytes: seq<bv8>, pc: nat, st: XState, f: nat, g: nat)
    requires st.Valid() && Run(hw, bytes, pc, st, f).Running?
    ensures var o := Run(hw, bytes, pc, st, f);
            Run(hw, bytes, pc, st, f + g) == Run(hw, bytes, o.pc, o.st, g)
    decreases f
  {
    hide StepAt;
    if f > 0 {
      var o := StepAt(hw, bytes, pc, st);
      RunSplit(hw, bytes, o.pc, o.st, f - 1, g);
    }
  }

  lemma ReachTrans(hw: Hw, bytes: seq<bv8>, pc: nat, st: XState, pc1: nat, st1: XState, pc2: nat, st2: XState)
    requires Reaches(hw, bytes, pc, st, pc1, st1) && Reaches(hw, bytes, pc1, st1, pc2, st2)
    ensures Reaches(hw, bytes, pc, st, pc2, st2)
  {
    var f: nat :| Run(hw, bytes, pc, st, f) == Running(pc1, st1);
    var g: nat :| Run(hw, bytes, pc1, st1, g) == Running(pc2, st2);
    RunSplit(hw, bytes, pc, st, f, g);
  }

  lemma ReachStep(hw: Hw, bytes: seq<bv8>, pc: nat, st: XState, pc': nat, st': XState)
    requires st.Valid() && st'.Valid() && StepAt(hw, bytes, pc, st) == Running(pc', st')
    ensures Reaches(hw, bytes, pc, st, pc', st')
  {
    hide StepAt;
    assert Run(hw, bytes, pc', st', 0) == Running(pc', st');
    assert Run(hw, bytes, pc, st, 1) == Running(pc', st');
  }

  lemma ReachHere(hw: Hw, bytes: seq<bv8>, pc: nat, st: XState)
    requires st.Valid()
    ensures Reaches(hw, bytes, pc, st, pc, st)
  {
    assert Run(hw, bytes, pc, st, 0) == Running(pc, st);
  }

  // ----- straight-line stretches -----

  predicate AllEncodable(code: seq<XInstr>) { forall k :: 0 <= k < |code| ==> Encodable(code[k]) }

  predicate Straight(code: seq<XInstr>) { forall k :: 0 <= k < |code| ==> !code[k].Jl? && !code[k].Ret? }

  lemma OkBefore(hw: Hw, i: XInstr, st: XState)
    requires st.Valid() && Exec(hw, i, st).ok
    ensures st.ok
  {
  }

  lemma {:induction false} OkBeforeAll(hw: Hw, code: seq<XInstr>, st: XState)
    requires st.Valid() && ExecAll(hw, code, st).ok
    ensures st.ok
  {
    hide Exec;
    if code != [] {
      OkBeforeAll(hw, code[1..], Exec(hw, code[0], st));
      OkBefore(hw, code[0], st);
    }
  }

  lemma SliceAt<T>(a: seq<T>, b: seq<T>)
    ensures (a + b)[|a|..] == b
  {
  }

  /** The bytes at the end of a stretch of code decode to the instruction that follows it. */
  lemma FetchNext(front: seq<XInstr>, i: XInstr, back: seq<XInstr>)
    requires Encodable(i)
    ensures var bytes, pc := EncodeAll(front + [i] + back), |EncodeAll(front)|;
            pc <= |bytes| && Decode(bytes[pc..]) == Decoded(i, |Encode(i)|)
  {
    hide Encode, Decode, EncodeAll;
    EncodeAppend(front + [i], back);
    EncodeAppend(front, [i]);
    EncodeOne(i);
    Associate(EncodeAll(front), Encode(i), EncodeAll(back));
    SliceAt(EncodeAll(front), Encode(i) + EncodeAll(back));
    DecodeEncode(i, EncodeAll(back));
  }

  /** Running a stretch without jumps executes its instructions in order. */
  lemma {:induction false} RunStraight(hw: Hw, front: seq<XInstr>, mid: seq<XInstr>, back: seq<XInstr>, st: XState)
    requires st.Valid() && AllEncodable(mid) && Straight(mid) && ExecAll(hw, mid, st).ok
    ensures Reaches(hw, EncodeAll(front + mid + back), |EncodeAll(front)|, st,
                    |EncodeAll(front + mid)|, ExecAll(hw, mid, st))
    decreases |mid|
  {
    hide Exec, Encode, Decode, EncodeAll, Run, Encodable;
    var bytes := EncodeAll(front + mid + back);
    if mid == [] {
      assert front + mid == front;
      ReachHere(hw, bytes, |EncodeAll(front)|, st);
    } else {
      var i, rest := mid[0], mid[1..];
      var st1 := Exec(hw, i, st);
      assert mid == [i] + rest;
      assert front + mid + back == front + [i] + (rest + back) == (front + [i]) + rest + back;
      assert front + mid == (front + [i]) + rest;
      OkBeforeAll(hw, rest, st1);
      FetchNext(front, i, rest + back);
      EncodeAppend(front, [i]);
      EncodeOne(i);
      ReachStep(hw, bytes, |EncodeAll(front)|, st, |EncodeAll(front + [i])|, st1);
      RunStraight(hw, front + [i], rest, back, st1);
      ReachTrans(hw, bytes, |EncodeAll(front)|, st, |EncodeAll(front + [i])|, st1,
                 |EncodeAll(front + mid)|, ExecAll(hw, mid, st));
    }
  }
}
