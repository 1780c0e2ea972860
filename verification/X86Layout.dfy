/** Where every instruction of the emitted program starts, and that a decoder finds them there. */
module X86Layout {
  import opened Octets
  import opened Isochron
  import opened X86
  import opened X86Bytes
  import opened X86Compile
  import opened X86Program
  import opened X86Run
  import opened X86Fetch
  import opened X86Correct
  import opened X86Emitter

  datatype Listing = Garbled | Listing(code: seq<XInstr>)

  /** Decodes a byte string from its first byte to its last. */
  function DecodeAll(b: seq<bv8>): Listing
    decreases |b|
  {
    if b == [] then Listing([])
    else match Decode(b)
      case Bad => Garbled
      case Decoded(i, len) =>
        if 0 < len <= |b| then
          match DecodeAll(b[len..])
          case Garbled => Garbled
          case Listing(rest) => Listing([i] + rest)
        else Garbled
  }

  /** Decoding the bytes of a listing gives the listing back. */
  lemma {:induction false} DecodeEncodeAll(code: seq<XInstr>)
    requires AllEncodable(code)
    ensures DecodeAll(EncodeAll(code)) == Listing(code)
  {
    hide Encode, Decode, InstrLen, Encodable;
    if code != [] {
      var rest := EncodeAll(code[1..]);
      DecodeEncode(code[0], rest);
      EncodedLength(code[0]);
      SomeBytes(code[0]);
      DecodeEncodeAll(code[1..]);
      assert EncodeAll(code)[InstrLen(code[0])..] == rest;
      assert [code[0]] + code[1..] == code;
    }
  }

  lemma SomeBytes(i: XInstr)
    ensures InstrLen(i) > 0
  {
  }

  // ----- slots -----

  /** Where slot i starts; slot |prog| is the end of the loop body. */
  function SlotOffset(prog: seq<Instr>, i: nat): nat
    requires i <= |prog|
  {
    PROLOGUE_BYTES + BodyLen(prog[..i])
  }

  lemma {:induction false} BodySize(prog: seq<Instr>)
    ensures |EncodeAll(Body(prog))| == BodyLen(prog)
  {
    hide SlotCode, EncodeAll, X86Len;
    if prog == [] {
      CodeLength([]);
    } else {
      var front, last := prog[..|prog| - 1], prog[|prog| - 1];
      BodySize(front);
      SlotBytes(last);
      EncodeAppend(Body(front), SlotCode(last));
    }
  }

  lemma {:induction false} InitSize(n: nat)
    requires n <= 8
    ensures CodeLen(InitCode(n)) == if n == 0 then 0 else 14 * n - 7
  {
    if n > 0 {
      InitSize(n - 1);
      CodeLenAppend(InitCode(n - 1), InitOne(n - 1));
      CodeLenShort(InitOne(n - 1));
    }
  }

  lemma PrologueSize()
    ensures |EncodeAll(Prologue())| == PROLOGUE_BYTES
  {
    hide EncodeAll, CodeLen, InitCode;
    var a, b := [Push(3), Push(5), Push(12)], [Push(13), Push(14), Push(15)];
    var c := [MovImm64(R11, MULT), LoadKey];
    CodeLenShort(a);
    CodeLenShort(b);
    CodeLenAppend(a, b);
    CodeLenShort(c);
    CodeLenAppend(SaveCode(), c);
    InitSize(8);
    CodeLenAppend(SaveCode() + c, InitCode(8));
    CodeLenShort([ClearR10]);
    CodeLenAppend(SaveCode() + c + InitCode(8), [ClearR10]);
    CodeLength(Prologue());
  }

  /** What follows the first slots of a program. */
  function AfterBody(prog: seq<Instr>): seq<XInstr> { LoopEnd() + [JumpBack(prog)] + Tail() + [Ret] }

  lemma {:induction false} BodySplit(prog: seq<Instr>, i: nat) returns (rest: seq<XInstr>)
    requires i <= |prog|
    ensures Body(prog) == Body(prog[..i]) + rest
    decreases |prog| - i
  {
    hide SlotCode;
    if i == |prog| {
      assert prog[..i] == prog;
      rest := [];
    } else {
      var tail := BodySplit(prog, i + 1);
      BodyLenGrows(prog, i);
      rest := SlotCode(prog[i]) + tail;
    }
  }

  lemma Cut<T>(a: seq<T>, b: seq<T>, c: seq<T>, s: seq<T>, from: nat, to: nat)
    requires s == a + b + c && from == |a| && to == |a| + |b|
    ensures to <= |s| && s[from..to] == b
  {
  }

  /** Slot i occupies exactly the bytes between consecutive offsets, and decoding those bytes
      alone gives the code of that slot: no instruction straddles a boundary. */
  lemma SlotAtOffset(prog: seq<Instr>, i: nat)
    requires i < |prog|
    ensures SlotOffset(prog, i) <= SlotOffset(prog, i + 1) <= |Bytes(prog)|
    ensures Bytes(prog)[SlotOffset(prog, i)..SlotOffset(prog, i + 1)] == EncodeAll(SlotCode(prog[i]))
    ensures DecodeAll(Bytes(prog)[SlotOffset(prog, i)..SlotOffset(prog, i + 1)]) == Listing(SlotCode(prog[i]))
  {
    hide EncodeAll, Body, SlotCode, Prologue, LoopEnd, JumpBack, Tail, DecodeAll, X86Len, BodyLen;
    var front, mid := Prologue() + Body(prog[..i]), SlotCode(prog[i]);
    var more := BodySplit(prog, i + 1);
    BodyLenGrows(prog, i);
    var back := more + AfterBody(prog);
    assert Code(prog) == front + mid + back;
    EncodeAppend(front + mid, back);
    EncodeAppend(front, mid);
    EncodeAppend(Prologue(), Body(prog[..i]));
    PrologueSize();
    BodySize(prog[..i]);
    SlotBytes(prog[i]);
    Cut(EncodeAll(front), EncodeAll(mid), EncodeAll(back), Bytes(prog), SlotOffset(prog, i), SlotOffset(prog, i + 1));
    PlainSlot(prog[i]);
    DecodeEncodeAll(mid);
  }

  /** Decoding the whole emitted stream gives back exactly the intended instructions. */
  lemma DecodeProgram(prog: seq<Instr>)
    requires |prog| == PROG_INSTR
    ensures DecodeAll(Bytes(prog)) == Listing(Code(prog))
  {
    hide EncodeAll, DecodeAll, Prologue, LoopCode, Tail, JumpBack, Encodable;
    PlainPrologue();
    PlainLoop(prog);
    PlainTail();
    BackInRange(prog);
    assert AllEncodable([JumpBack(prog)] + Tail() + [Ret]) by { EncodableEnds(prog); }
    assert Code(prog) == Prologue() + LoopCode(prog) + ([JumpBack(prog)] + Tail() + [Ret]);
    DecodeEncodeAll(Code(prog));
  }

  lemma EncodableEnds(prog: seq<Instr>)
    requires Encodable(JumpBack(prog)) && AllEncodable(Tail())
    ensures AllEncodable([JumpBack(prog)] + Tail() + [Ret])
  {
    hide Tail, JumpBack;
  }

  /** The backward jump sits where the body and the loop end stop, and its displacement,
      counted from its own end, lands on the first slot. */
  lemma JumpLandsOnFirstSlot(prog: seq<Instr>)
    ensures JumpAt(prog) == SlotOffset(prog, |prog|) + 13
    ensures JumpAt(prog) + 6 + JumpBack(prog).rel == SlotOffset(prog, 0) == Top()
  {
    hide EncodeAll, Prologue, Body, LoopEnd;
    PrologueSize();
    BodySize(prog);
    LoopEndBytes();
    EncodeAppend(Prologue(), LoopCode(prog));
    EncodeAppend(Body(prog), LoopEnd());
    assert prog[..|prog|] == prog && prog[..0] == [];
  }

  lemma {:induction false} FoldSize(n: nat)
    requires 1 <= n <= 8
    ensures CodeLen(FoldCode(n)) == 3 * n
  {
    if n == 1 {
      CodeLenShort(FoldCode(1));
    } else {
      FoldSize(n - 1);
      CodeLenAppend(FoldCode(n - 1), [Alu(AluXor, RAX, Pin(n - 1))]);
      CodeLenShort([Alu(AluXor, RAX, Pin(n - 1))]);
    }
  }

  lemma TailSize()
    ensures |EncodeAll(Tail())| == 34
  {
    hide EncodeAll, CodeLen, FoldCode;
    var a, b := [Pop(15), Pop(14), Pop(13)], [Pop(12), Pop(5), Pop(3)];
    CodeLenShort(a);
    CodeLenShort(b);
    CodeLenAppend(a, b);
    FoldSize(8);
    CodeLenAppend(FoldCode(8), RestoreCode());
    CodeLength(Tail());
  }

  /** The emitted size: prologue, table, epilogue. */
  lemma CodeSize(prog: seq<Instr>)
    ensures |Bytes(prog)| == PROLOGUE_BYTES + BodyLen(prog) + EPILOGUE_BYTES
  {
    hide EncodeAll, Encode, Prologue, Body, Tail, LoopEnd, JumpBack, BodyLen;
    PrologueSize();
    BodySize(prog);
    LoopEndBytes();
    TailSize();
    EncodeAppend(BeforeTail(prog) + Tail(), [Ret]);
    EncodeAppend(BeforeTail(prog), Tail());
    EncodeAppend(Prologue() + LoopCode(prog), [JumpBack(prog)]);
    EncodeAppend(Prologue(), LoopCode(prog));
    EncodeAppend(Body(prog), LoopEnd());
    EncodeOne(Ret);
    EncodeOne(JumpBack(prog));
    EncodedLength(Ret);
    EncodedLength(JumpBack(prog));
    JumpBackIsJl(prog);
  }

  /** The table of slot offsets. */
  method SlotOffsets(prog: seq<Instr>) returns (off: array<nat>)
    ensures fresh(off) && off.Length == |prog| + 1
    ensures forall i :: 0 <= i <= |prog| ==> off[i] == SlotOffset(prog, i)
  {
    hide X86Len, SlotCode, Body;
    off := new nat[|prog| + 1];
    off[0] := PROLOGUE_BYTES;
    assert prog[..0] == [];
    for i := 0 to |prog|
      invariant forall j :: 0 <= j <= i ==> off[j] == SlotOffset(prog, j)
    {
      BodyLenGrows(prog, i);
      off[i + 1] := off[i] + X86Len(prog[i].op);
    }
  }
}
