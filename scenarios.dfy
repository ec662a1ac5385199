/**
 * Short programs run on the model from start to end: each one is loaded
 * with the big-endian loader, stepped, and its effect read off the state.
 */
module Scenarios {
  import opened Results
  import opened Bits
  import opened Decoder
  import opened Display
  import opened Semantics
  import opened Properties

  /** `6005` (V0 := 5) then `7003` (V0 += 3): two steps leave 8 in V0, `ip` past both, and all else as it was. */
  lemma LoadThenAdd(s: State)
    requires WellFormed(s) && s.ip == EntryPoint
    ensures var t := s.(memory := LoadImage(s.memory, [0x6005, 0x7003]));
            Run(t, [0, 0]) == Ok(t.(ip := EntryPoint + 4, V := s.V[0 := 8]))
  {
    var t := s.(memory := LoadImage(s.memory, [0x6005, 0x7003]));
    LoadedTwo(s, 0x6005, 0x7003);
    MovFive(t);
    var t1 := t.(ip := EntryPoint + 2, V := s.V[0 := 5]);
    AddThree(t1);
    assert t1.V[0 := 8] == s.V[0 := 8];
    RunTwo(t, t1, t1.(ip := EntryPoint + 4, V := t1.V[0 := 8]));
  }

  /**
   * `A2F0` (I := 0x2F0) then `F355` (dump V0..V3): memory becomes `Dumped` at
   * `0x2F0` (which `DumpedRange` reads back as `V0..V3`) and the registers keep their values.
   */
  lemma SetIndexThenDump(s: State)
    requires WellFormed(s) && s.ip == EntryPoint
    ensures var t := s.(memory := LoadImage(s.memory, [0xA2F0, 0xF355]));
            Run(t, [0, 0]) == Ok(t.(ip := EntryPoint + 4, I := 0x2F0, memory := Dumped(t.memory, s.V, 0x2F0, 3)))
  {
    var t := s.(memory := LoadImage(s.memory, [0xA2F0, 0xF355]));
    LoadedTwo(s, 0xA2F0, 0xF355);
    SetIndex(t);
    var t1 := t.(ip := EntryPoint + 2, I := 0x2F0);
    DumpFour(t1);
    RunTwo(t, t1, t1.(ip := EntryPoint + 4, memory := Dumped(t1.memory, t1.V, 0x2F0, 3)));
  }

  /** A two-word program loaded at the entry point is fetched word by word. */
  lemma LoadedTwo(s: State, w0: word, w1: word)
    requires WellFormed(s) && s.ip == EntryPoint
    ensures var t := s.(memory := LoadImage(s.memory, [w0, w1]));
            && WellFormed(t) && Fetch(t) == w0
            && Fetch(t.(ip := EntryPoint + 2)) == w1
  {
    LoadImageFetches(s, [w0, w1], 0);
    LoadImageFetches(s, [w0, w1], 1);
  }

  lemma MovFive(s: State)
    requires WellFormed(s) && s.ip == EntryPoint && Fetch(s) == 0x6005
    ensures Step(s, 0) == Ok(s.(ip := EntryPoint + 2, V := s.V[0 := 5]))
  {
    StepOf(s, 0x6005, Inst(MOV, 0x005));
  }

  lemma AddThree(s: State)
    requires WellFormed(s) && s.ip == EntryPoint + 2 && Fetch(s) == 0x7003 && s.V[0] == 5
    ensures Step(s, 0) == Ok(s.(ip := EntryPoint + 4, V := s.V[0 := 8]))
  {
    StepOf(s, 0x7003, Inst(ADD, 0x003));
    assert s.V[0 := 8] == s.V[0 := (s.V[0] + 3) % 0x100];
  }

  lemma SetIndex(s: State)
    requires WellFormed(s) && s.ip == EntryPoint && Fetch(s) == 0xA2F0
    ensures Step(s, 0) == Ok(s.(ip := EntryPoint + 2, I := 0x2F0))
  {
    StepOf(s, 0xA2F0, Inst(SETI, 0x2F0));
  }

  lemma DumpFour(s: State)
    requires WellFormed(s) && s.ip == EntryPoint + 2 && Fetch(s) == 0xF355 && s.I == 0x2F0
    ensures Step(s, 0) == Ok(s.(ip := EntryPoint + 4, memory := Dumped(s.memory, s.V, 0x2F0, 3)))
  {
    DecodesDump();
    StepDump(s, 0xF355, Inst(DUMP, 0x355));
  }

  lemma DecodesDump()
    ensures Decode(0xF355) == Some(Inst(DUMP, 0x355))
  {
  }

  /** A step onto a DUMP whose bytes fit in memory stores `V0..Vx` at `I` and changes nothing else. */
  lemma StepDump(s: State, code: word, inst: Inst)
    requires WellFormed(s) && s.ip + 1 < MemorySize && Fetch(s) == code && Decode(code) == Some(inst)
    requires inst.op == DUMP && s.I + RegX(inst) < MemorySize
    ensures Step(s, 0) == Ok(s.(ip := Advance(s.ip, 2), memory := Dumped(s.memory, s.V, s.I, RegX(inst))))
  {
  }

  /** The bytes DUMP writes are the registers `V0..Vx`, in order. */
  lemma DumpedRange(memory: seq<byte>, V: seq<byte>, I: nat, x: nat)
    requires |memory| == MemorySize && |V| == 16 && x < 16 && I + x < MemorySize
    ensures Dumped(memory, V, I, x)[I .. I + x + 1] == V[..x + 1]
  {
  }

  /** A step whose fetched opcode is `code` executes `inst`, the decoding of `code`, past it. */
  lemma StepOf(s: State, code: word, inst: Inst)
    requires WellFormed(s) && s.ip + 1 < MemorySize && Fetch(s) == code && Decode(code) == Some(inst)
    ensures Step(s, 0) == Execute(s.(ip := Advance(s.ip, 2)), inst, 0)
  {
  }

  /** Two steps without a fault make a run of two. */
  lemma RunTwo(s: State, t: State, u: State)
    requires WellFormed(s) && WellFormed(t) && Step(s, 0) == Ok(t) && Step(t, 0) == Ok(u)
    ensures Run(s, [0, 0]) == Ok(u)
  {
    assert [0, 0][1..] == [0];
    assert Run(t, [0]) == Run(u, []);
  }

  /** BCD on 157 writes the digits 1, 5, 7. */
  lemma BcdOf157(s: State, inst: Inst, rnd: nat)
    requires WellFormed(s) && inst.op == BCD && s.V[RegX(inst)] == 157 && s.I + 2 < MemorySize
    ensures Execute(s, inst, rnd).Ok?
    ensures Execute(s, inst, rnd).value.memory[s.I .. s.I + 3] == [1, 5, 7]
  {
    BcdDigits(s, inst, rnd);
  }
}
