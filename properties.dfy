/**
 * What the instructions of cip8.h promise, proved about `Semantics`.
 */
module Properties {
  import opened Results
  import opened Bits
  import opened Decoder
  import opened Display
  import opened Semantics

  /** The instruction a step of `s` executes (when its opcode decodes). */
  function Current(s: State): (r: Option<Inst>)
    requires WellFormed(s)
  {
    if s.ip + 1 < MemorySize then Decode(Fetch(s)) else None
  }

  /** The condition under which a skip instruction passes over the next instruction. */
  predicate SkipTaken(s: State, inst: Inst)
    requires WellFormed(s)
  {
    var a := s.V[RegX(inst)];
    match inst.op
    case JEQ => a == Imm8(inst)
    case JNEQ => a != Imm8(inst)
    case JVEQ => a == s.V[RegY(inst)]
    case JVNEQ => a != s.V[RegY(inst)]
    case KEYD => a < 16 && s.keyboard[a] != 0
    case KEYU => a < 16 && s.keyboard[a] == 0
    case _ => false
  }

  predicate IsSkip(op: Op) {
    match op
    case JEQ | JNEQ | JVEQ | JVNEQ | KEYD | KEYU => true
    case _ => false
  }

  /** The instructions that set `ip` themselves. */
  predicate IsJump(op: Op) {
    match op
    case RET | GOTO | CALLS | JMV0 | GETK => true
    case _ => false
  }

  // ---------------------------------------------------------------- stepping

  /** An instruction that neither jumps nor skips leaves `ip` on the next instruction. */
  lemma StepAdvances(s: State, rnd: nat)
    requires WellFormed(s) && Step(s, rnd).Ok?
    requires Current(s).Some? && !IsJump(Current(s).value.op) && !IsSkip(Current(s).value.op)
    ensures Step(s, rnd).value.ip == Advance(s.ip, 2)
  {
  }

  /** A skip moves `ip` four bytes on when its condition holds and two otherwise. */
  lemma StepSkips(s: State, rnd: nat)
    requires WellFormed(s) && Step(s, rnd).Ok?
    requires Current(s).Some? && IsSkip(Current(s).value.op)
    ensures Step(s, rnd).value.ip == Advance(s.ip, if SkipTaken(s, Current(s).value) then 4 else 2)
  {
    var inst, t := Current(s).value, s.(ip := Advance(s.ip, 2));
    StepExecutes(s, rnd);
    ExecuteSkips(t, inst, rnd);
    AdvanceTwice(s.ip, 2, 2);
  }

  /** GETK leaves `ip` on the GETK instruction itself and blocks exactly while its key is up. */
  lemma GetKeyWaits(s: State, rnd: nat)
    requires WellFormed(s) && Current(s).Some? && Current(s).value.op == GETK
    requires s.V[RegX(Current(s).value)] < 16
    ensures Step(s, rnd) == Ok(s.(blocked := s.keyboard[s.V[RegX(Current(s).value)]] == 0))
  {
    var inst, t := Current(s).value, s.(ip := Advance(s.ip, 2));
    StepExecutes(s, rnd);
    GetKeyBlocks(t, inst, rnd);
    AdvanceTwice(s.ip, 2, -2);
  }

  /**
   * GETK never gets past itself: however many steps are taken, `ip` stays on
   * the instruction and no register is written; `blocked` only tells whether
   * the key numbered by `Vx` is up.
   */
  lemma {:induction false} GetKeyStalls(s: State, rnds: seq<nat>)
    requires WellFormed(s) && Current(s).Some? && Current(s).value.op == GETK
    requires s.V[RegX(Current(s).value)] < 16
    ensures Run(s, rnds).Ok?
    ensures Run(s, rnds).value
         == if rnds == [] then s else s.(blocked := s.keyboard[s.V[RegX(Current(s).value)]] == 0)
    decreases |rnds|
  {
    if rnds != [] {
      GetKeyWaits(s, rnds[0]);
      var u := s.(blocked := s.keyboard[s.V[RegX(Current(s).value)]] == 0);
      assert Current(u) == Current(s);
      GetKeyStalls(u, rnds[1..]);
    }
  }

  /** Only DRW sets `displayChanged`; every other instruction, CLD included, leaves it alone. */
  lemma OnlyDrawMarksDisplay(s: State, inst: Inst, rnd: nat)
    requires WellFormed(s) && Execute(s, inst, rnd).Ok?
    ensures Execute(s, inst, rnd).value.displayChanged == (s.displayChanged || inst.op == DRW)
  {
  }

  /** SETDT then GETDT: the delay timer carries a register's value to another register. */
  lemma DelayTimerRoundTrip(s: State, store: Inst, read: Inst, rnd: nat)
    requires WellFormed(s) && store.op == SETDT && read.op == GETDT
    ensures Execute(s, store, rnd).Ok?
    ensures var t := Execute(s, store, rnd).value;
            && t.delayTimer == s.V[RegX(store)]
            && Execute(t, read, rnd).Ok?
            && Execute(t, read, rnd).value.V == s.V[RegX(read) := s.V[RegX(store)]]
  {
  }

  /** A step that fetches a known opcode executes it with `ip` already moved past it. */
  lemma StepExecutes(s: State, rnd: nat)
    requires WellFormed(s) && Current(s).Some?
    ensures Step(s, rnd) == Execute(s.(ip := Advance(s.ip, 2)), Current(s).value, rnd)
  {
  }

  /** Two moves of `ip` add up, modulo the 16-bit width of `ip`. */
  lemma AdvanceTwice(ip: word, d: int, e: int)
    requires 0 <= ip + d
    ensures Advance(Advance(ip, d), e) == Advance(ip, d + e)
  {
  }

  /** GOTO sets `ip` to its operand and JMV0 to `V0` plus its operand; nothing else changes. */
  lemma Jumps(s: State, inst: Inst, rnd: nat)
    requires WellFormed(s) && (inst.op == GOTO || inst.op == JMV0)
    ensures Execute(s, inst, rnd).Ok?
    ensures Execute(s, inst, rnd).value
         == s.(ip := if inst.op == GOTO then inst.operand else s.V[0] + inst.operand)
  {
  }

  /** A skip executed on its own adds 2 to `ip` exactly when its condition holds. */
  lemma ExecuteSkips(s: State, inst: Inst, rnd: nat)
    requires WellFormed(s) && IsSkip(inst.op) && Execute(s, inst, rnd).Ok?
    ensures Execute(s, inst, rnd).value.ip == Advance(s.ip, if SkipTaken(s, inst) then 2 else 0)
  {
  }

  /** GETK executed on its own: `ip` back by 2, `blocked` set while the key is up, nothing else. */
  lemma GetKeyBlocks(s: State, inst: Inst, rnd: nat)
    requires WellFormed(s) && inst.op == GETK && s.V[RegX(inst)] < 16
    ensures Execute(s, inst, rnd)
         == Ok(s.(blocked := s.keyboard[s.V[RegX(inst)]] == 0, ip := Advance(s.ip, -2)))
  {
  }

  /** No run of steps touches the keyboard or the `halted` flag: only the host changes them. */
  lemma {:induction false} RunKeepsInputs(s: State, rnds: seq<nat>)
    requires WellFormed(s)
    ensures Run(s, rnds).Ok? ==> Run(s, rnds).value.keyboard == s.keyboard && Run(s, rnds).value.halted == s.halted
    decreases |rnds|
  {
    if rnds != [] {
      var st := Step(s, rnds[0]);
      if st.Ok? {
        RunKeepsInputs(st.value, rnds[1..]);
      }
    }
  }

  // --------------------------------------------------------- flag arithmetic

  /** The registers other than `Vx` and `VF` keep their values. */
  predicate OthersKept(s: State, r: State, x: nat)
    requires WellFormed(s) && WellFormed(r)
  {
    forall i :: 0 <= i < 16 && i != x && i != 0xF ==> r.V[i] == s.V[i]
  }

  /** ADDC: `Vx` is the byte sum and VF the carry. */
  lemma AddCarry(s: State, inst: Inst, rnd: nat)
    requires WellFormed(s) && inst.op == ADDC && RegX(inst) != 0xF
    ensures Execute(s, inst, rnd).Ok?
    ensures var r, a, b := Execute(s, inst, rnd).value, s.V[RegX(inst)], s.V[RegY(inst)];
            && r.V[RegX(inst)] == (a as int + b) % 0x100
            && r.V[0xF] == (if a as int + b > 0xFF then 1 else 0)
            && OthersKept(s, r, RegX(inst)) && r == s.(V := r.V)
  {
  }

  /** SUBC: `Vx` is `Vx - Vy` as a byte and VF is 1 exactly when nothing was borrowed. */
  lemma SubBorrow(s: State, inst: Inst, rnd: nat)
    requires WellFormed(s) && inst.op == SUBC && RegX(inst) != 0xF
    ensures Execute(s, inst, rnd).Ok?
    ensures var r, a, b := Execute(s, inst, rnd).value, s.V[RegX(inst)], s.V[RegY(inst)];
            && r.V[RegX(inst)] == (a as int - b) % 0x100
            && r.V[0xF] == (if a >= b then 1 else 0)
            && OthersKept(s, r, RegX(inst)) && r == s.(V := r.V)
  {
    NoBorrow(s.V[RegX(inst)], s.V[RegY(inst)]);
  }

  /** SUBR: `Vx` is `Vy - Vx` as a byte and VF is 1 exactly when nothing was borrowed. */
  lemma ReverseSubBorrow(s: State, inst: Inst, rnd: nat)
    requires WellFormed(s) && inst.op == SUBR && RegX(inst) != 0xF
    ensures Execute(s, inst, rnd).Ok?
    ensures var r, a, b := Execute(s, inst, rnd).value, s.V[RegX(inst)], s.V[RegY(inst)];
            && r.V[RegX(inst)] == (b as int - a) % 0x100
            && r.V[0xF] == (if b >= a then 1 else 0)
            && OthersKept(s, r, RegX(inst)) && r == s.(V := r.V)
  {
    NoBorrow(s.V[RegY(inst)], s.V[RegX(inst)]);
  }

  /** The 16-bit and the 8-bit difference agree exactly when the difference is not negative. */
  lemma NoBorrow(a: byte, b: byte)
    ensures SubWithBorrow(a, b).1 == (if a >= b then 1 else 0)
    ensures SubWithBorrow(a, b).0 == (a as int - b) % 0x100
  {
    if a < b {
      assert (a - b) % 0x1_0000 == 0x1_0000 + a - b;
    }
  }

  /** SHR: VF gets bit 0 and every other bit moves down one place. */
  lemma ShiftRight(s: State, inst: Inst, rnd: nat)
    requires WellFormed(s) && inst.op == SHR && RegX(inst) != 0xF
    ensures Execute(s, inst, rnd).Ok?
    ensures var r, a := Execute(s, inst, rnd).value, s.V[RegX(inst)];
            && (r.V[0xF] == 1 <==> Bit(a, 0)) && r.V[0xF] <= 1
            && (forall k: nat :: Bit(r.V[RegX(inst)], k) == Bit(a, k + 1))
            && OthersKept(s, r, RegX(inst)) && r == s.(V := r.V)
  {
    var a := s.V[RegX(inst)];
    forall k: nat ensures Bit(Shr(a, 1), k) == Bit(a, k + 1) {
      BitOfShr(a, 1, k);
    }
  }

  /** SHL: VF gets bit 7 and the bits 0..6 move up one place; bit 7 falls off. */
  lemma ShiftLeft(s: State, inst: Inst, rnd: nat)
    requires WellFormed(s) && inst.op == SHL && RegX(inst) != 0xF
    ensures Execute(s, inst, rnd).Ok?
    ensures var r, a := Execute(s, inst, rnd).value, s.V[RegX(inst)];
            && (r.V[0xF] == 1 <==> Bit(a, 7)) && r.V[0xF] <= 1
            && (forall k: nat :: Bit(r.V[RegX(inst)], k) == (1 <= k < 8 && Bit(a, k - 1)))
            && OthersKept(s, r, RegX(inst)) && r == s.(V := r.V)
  {
    var a := s.V[RegX(inst)];
    TopBit(a, 7);
    forall k: nat ensures Bit(Low(Shl(a, 1), 8), k) == (1 <= k < 8 && Bit(a, k - 1)) {
      BitOfLow(Shl(a, 1), 8, k);
      BitOfShl(a, 1, k);
    }
  }

  /** OR, AND and XOR: each bit of `Vx` is the operator applied to the bits of `Vx` and `Vy`; VF and all else stay. */
  lemma LogicalBits(s: State, inst: Inst, rnd: nat)
    requires WellFormed(s) && (inst.op == OR || inst.op == AND || inst.op == XOR)
    ensures Execute(s, inst, rnd).Ok?
    ensures var r, a, b := Execute(s, inst, rnd).value, s.V[RegX(inst)], s.V[RegY(inst)];
            && (forall k: nat :: Bit(r.V[RegX(inst)], k) ==
                  if inst.op == OR then Bit(a, k) || Bit(b, k)
                  else if inst.op == AND then Bit(a, k) && Bit(b, k)
                  else Bit(a, k) != Bit(b, k))
            && r == s.(V := s.V[RegX(inst) := r.V[RegX(inst)]])
  {
    var a, b := s.V[RegX(inst)], s.V[RegY(inst)];
    forall k: nat
      ensures Bit(Or(a, b), k) == (Bit(a, k) || Bit(b, k))
      ensures Bit(And(a, b), k) == (Bit(a, k) && Bit(b, k))
      ensures Bit(Xor(a, b), k) == (Bit(a, k) != Bit(b, k))
    {
      OrBit(a, b, k);
      AndBit(a, b, k);
      XorBit(a, b, k);
    }
  }

  // ------------------------------------------------------------ call stack

  /** The stack pointer stays odd and inside `0xE9F..0xEFF`, the bytes of the stack region being `sp + 1 ..`. */
  predicate StackValid(s: State) {
    StackLimit - 1 <= s.sp <= StackTop && s.sp % 2 == 1
  }

  /** CALLS fails exactly when the stack is full. */
  lemma CallOverflow(s: State, inst: Inst)
    requires WellFormed(s) && StackValid(s) && inst.op == CALLS
    ensures Check(s, inst) == Some(StackOverflow) <==> s.sp <= StackLimit
    ensures Check(s, inst).None? <==> s.sp > StackLimit
  {
  }

  /** RET fails exactly when the stack is empty. */
  lemma ReturnUnderflow(s: State, inst: Inst)
    requires WellFormed(s) && StackValid(s) && inst.op == RET
    ensures Check(s, inst).None? <==> s.sp < StackTop
  {
  }

  /**
   * CALLS followed by RET: the return goes back to the address after the
   * call (given it fits in 12 bits) and the stack pointer is restored.
   */
  lemma CallThenReturn(s: State, call: Inst, ret: Inst, rnd: nat)
    requires WellFormed(s) && StackValid(s) && call.op == CALLS && ret.op == RET
    requires s.sp > StackLimit && s.ip <= 0xFFF
    ensures Execute(s, call, rnd).Ok?
    ensures var t := Execute(s, call, rnd).value;
            && t.ip == call.operand
            && Execute(t, ret, rnd).Ok?
            && Execute(t, ret, rnd).value.ip == s.ip
            && Execute(t, ret, rnd).value.sp == s.sp
  {
    var hi, lo := (s.ip / 0x10) % 0x100, s.ip % 0x10;
    CallPushes(s, call, rnd);
    var t := Execute(s, call, rnd).value;
    ReturnPops(t, ret, rnd);
    PushedAddress(s.memory, s.sp, s.ip);
  }

  /** The two bytes CALLS pushes for an address below `0x1000` read back as that address. */
  lemma PushedAddress(memory: seq<byte>, sp: nat, ip: nat)
    requires |memory| == MemorySize && 2 <= sp < MemorySize && ip <= 0xFFF
    ensures ReturnAddress(memory[sp - 1 := (ip / 0x10) % 0x100][sp := ip % 0x10], sp - 2) == ip
  {
    var hi, lo := ip / 0x10, ip % 0x10;
    assert hi % 0x100 == hi;
    PushedBytes(memory, sp, hi, lo);
  }

  /** Reading back the two stack bytes `hi`, `lo` gives `hi * 16 + lo`. */
  lemma PushedBytes(memory: seq<byte>, sp: nat, hi: byte, lo: byte)
    requires |memory| == MemorySize && 2 <= sp < MemorySize && lo < 0x10
    ensures ReturnAddress(memory[sp - 1 := hi][sp := lo], sp - 2) == hi as int * 0x10 + lo
  {
    OrDisjoint(hi, lo, 4);
    assert Pow2(4) == 16;
  }

  /** What CALLS does when the stack has room: two bytes of `ip` pushed, `ip` set, `sp` down by 2. */
  lemma CallPushes(s: State, call: Inst, rnd: nat)
    requires WellFormed(s) && call.op == CALLS && StackLimit < s.sp < MemorySize
    ensures Execute(s, call, rnd)
         == Ok(s.(memory := s.memory[s.sp - 1 := (s.ip / 0x10) % 0x100][s.sp := s.ip % 0x10],
                  ip := call.operand, sp := s.sp - 2))
  {
  }

  /** What RET does when the stack is not empty: `ip` read from the two bytes above `sp`, `sp` up by 2. */
  lemma ReturnPops(s: State, ret: Inst, rnd: nat)
    requires WellFormed(s) && ret.op == RET && s.sp + 2 <= StackTop
    ensures Execute(s, ret, rnd) == Ok(s.(ip := ReturnAddress(s.memory, s.sp), sp := s.sp + 2))
  {
  }

  /** Every step keeps the stack pointer valid. */
  lemma StepKeepsStack(s: State, rnd: nat)
    requires WellFormed(s) && StackValid(s) && Step(s, rnd).Ok?
    ensures StackValid(Step(s, rnd).value)
  {
    var inst := Current(s).value;
    var t := s.(ip := Advance(s.ip, 2));
    assert Step(s, rnd) == Execute(t, inst, rnd);
    ExecuteKeepsStack(t, inst, rnd);
  }

  lemma ExecuteKeepsStack(s: State, inst: Inst, rnd: nat)
    requires WellFormed(s) && StackValid(s) && Execute(s, inst, rnd).Ok?
    ensures StackValid(Execute(s, inst, rnd).value)
  {
    if inst.op == CALLS {
      CallPushes(s, inst, rnd);
    } else if inst.op == RET {
      ReturnPops(s, inst, rnd);
    }
  }

  /** CALLS writes only the two stack bytes just below the stack pointer, inside `0xEA0..0xEFF`. */
  lemma CallWritesStackOnly(s: State, inst: Inst, rnd: nat)
    requires WellFormed(s) && StackValid(s) && inst.op == CALLS && Execute(s, inst, rnd).Ok?
    ensures forall a :: 0 <= a < MemorySize && !(StackLimit <= a <= StackTop)
              ==> Execute(s, inst, rnd).value.memory[a] == s.memory[a]
    ensures StackLimit <= s.sp - 1 && s.sp <= StackTop
  {
  }

  // ------------------------------------------------------- memory through I

  /** BCD stores the three decimal digits of `Vx` and changes nothing else. */
  lemma BcdDigits(s: State, inst: Inst, rnd: nat)
    requires WellFormed(s) && inst.op == BCD && s.I + 2 < MemorySize
    ensures Execute(s, inst, rnd).Ok?
    ensures var r := Execute(s, inst, rnd).value;
            && r.memory[s.I] < 10 && r.memory[s.I + 1] < 10 && r.memory[s.I + 2] < 10
            && 100 * r.memory[s.I] + 10 * r.memory[s.I + 1] + r.memory[s.I + 2] == s.V[RegX(inst)]
            && (forall a :: 0 <= a < MemorySize && !(s.I <= a <= s.I + 2) ==> r.memory[a] == s.memory[a])
            && r == s.(memory := r.memory)
  {
  }

  /** DUMP copies `V0..Vx` to `memory[I..I+x]`; registers, `I` and the rest of memory stay. */
  lemma DumpFrame(s: State, inst: Inst, rnd: nat)
    requires WellFormed(s) && inst.op == DUMP && s.I + RegX(inst) < MemorySize
    ensures Execute(s, inst, rnd).Ok?
    ensures var r, x := Execute(s, inst, rnd).value, RegX(inst);
            && (forall i :: 0 <= i <= x ==> r.memory[s.I + i] == s.V[i])
            && (forall a :: 0 <= a < MemorySize && !(s.I <= a <= s.I + x) ==> r.memory[a] == s.memory[a])
            && r == s.(memory := r.memory)
  {
  }

  /** LOAD reads `V0..Vx` from `memory[I..I+x]`; the other registers, `I` and memory stay. */
  lemma LoadFrame(s: State, inst: Inst, rnd: nat)
    requires WellFormed(s) && inst.op == LOAD && s.I + RegX(inst) < MemorySize
    ensures Execute(s, inst, rnd).Ok?
    ensures var r, x := Execute(s, inst, rnd).value, RegX(inst);
            && (forall i :: 0 <= i <= x ==> r.V[i] == s.memory[s.I + i])
            && (forall i :: x < i < 16 ==> r.V[i] == s.V[i])
            && r == s.(V := r.V)
  {
  }

  /** LOAD after DUMP with the same `I` and `x` gives every register its old value back. */
  lemma DumpThenLoad(s: State, dump: Inst, load: Inst, rnd: nat)
    requires WellFormed(s) && dump.op == DUMP && load.op == LOAD && RegX(dump) == RegX(load)
    requires s.I + RegX(dump) < MemorySize
    ensures Execute(s, dump, rnd).Ok?
    ensures var t := Execute(s, dump, rnd).value;
            Execute(t, load, rnd) == Ok(t)
  {
    var t := Execute(s, dump, rnd).value;
    var x := RegX(dump);
    DumpFrame(s, dump, rnd);
    LoadFrame(t, load, rnd);
    var r := Execute(t, load, rnd).value;
    assert r.V == t.V;
  }

  /** The font-pointer instruction unpacks the glyph of digit `Vx` into nibbles at 51 and points `I` there. */
  lemma FontPointer(s: State, inst: Inst, rnd: nat)
    requires WellFormed(s) && inst.op == SETISPR
    ensures Execute(s, inst, rnd).Ok? <==> s.V[RegX(inst)] <= 15
    ensures Execute(s, inst, rnd).Ok? ==>
            var r, d := Execute(s, inst, rnd).value, s.V[RegX(inst)];
            && r.I == GlyphAddr
            && (forall j :: 0 <= j < 3 ==>
                  (r.memory[GlyphAddr + 2 * j] as int) * 0x10 + r.memory[GlyphAddr + 2 * j + 1] == s.memory[3 * d + j]
                  && r.memory[GlyphAddr + 2 * j + 1] < 0x10)
            && (forall a :: 0 <= a < MemorySize && !(GlyphAddr <= a < GlyphAddr + 6) ==> r.memory[a] == s.memory[a])
    ensures Execute(s, inst, rnd).Ok? ==>
            var r := Execute(s, inst, rnd).value;
            r == s.(memory := r.memory, I := GlyphAddr)
  {
  }

  // --------------------------------------------------------------- display

  /** CLD zeroes the framebuffer and changes nothing else, not even `displayChanged`. */
  lemma ClearDisplay(s: State, inst: Inst, rnd: nat)
    requires WellFormed(s) && inst.op == CLD
    ensures Execute(s, inst, rnd).Ok?
    ensures var r := Execute(s, inst, rnd).value;
            && (forall a :: FrameBase <= a < MemorySize ==> r.memory[a] == 0)
            && (forall a :: 0 <= a < FrameBase ==> r.memory[a] == s.memory[a])
            && r == s.(memory := r.memory)
  {
    var r := Execute(s, inst, rnd).value;
    forall a | 0 <= a < FrameBase ensures r.memory[a] == s.memory[a] {
      assert r.memory[..FrameBase][a] == s.memory[..FrameBase][a];
    }
  }

  /**
   * Wherever the sprite is read from, DRW changes only the framebuffer, VF
   * (which it can only set to 1) and `displayChanged`, which it sets.
   */
  lemma DrawFrame(s: State, inst: Inst, rnd: nat)
    requires WellFormed(s) && inst.op == DRW && Execute(s, inst, rnd).Ok?
    ensures var r := Execute(s, inst, rnd).value;
            && r.displayChanged
            && (r.V[0xF] == s.V[0xF] || r.V[0xF] == 1)
            && (forall i :: 0 <= i < 0xF ==> r.V[i] == s.V[i])
            && r.memory[..FrameBase] == s.memory[..FrameBase]
            && r == s.(memory := r.memory, V := r.V, displayChanged := true)
  {
    DrawRowsKeepsBelowFrame(Blit(s.memory, s.V[0xF]), s.I, s.V[RegX(inst)], s.V[RegY(inst)], Imm4(inst));
  }

  /**
   * DRW sets `displayChanged`, never clears VF, leaves the other registers
   * and the memory outside the framebuffer as they were, and flips exactly
   * the pixels its sprite rows cover with a set bit.
   */
  lemma DrawEffect(s: State, inst: Inst, rnd: nat)
    requires WellFormed(s) && inst.op == DRW && Execute(s, inst, rnd).Ok?
    requires s.I + Imm4(inst) <= FrameBase
    ensures var r := Execute(s, inst, rnd).value;
            && r.displayChanged
            && (r.V[0xF] == s.V[0xF] || r.V[0xF] == 1)
            && (forall i :: 0 <= i < 0xF ==> r.V[i] == s.V[i])
            && r.memory[..FrameBase] == s.memory[..FrameBase]
            && (forall p :: 0 <= p < Pixels ==>
                  Pixel(r.memory, p) == (Pixel(s.memory, p) != Flipped(s.memory, s.I, s.V[RegX(inst)], s.V[RegY(inst)], Imm4(inst), p)))
    ensures var r := Execute(s, inst, rnd).value;
            r == s.(memory := r.memory, V := r.V, displayChanged := true)
  {
    var b := Blit(s.memory, s.V[0xF]);
    DrawRowsKeepsBelowFrame(b, s.I, s.V[RegX(inst)], s.V[RegY(inst)], Imm4(inst));
    forall p | 0 <= p < Pixels
      ensures Pixel(DrawRows(b, s.I, s.V[RegX(inst)], s.V[RegY(inst)], Imm4(inst)).memory, p)
           == (Pixel(s.memory, p) != Flipped(s.memory, s.I, s.V[RegX(inst)], s.V[RegY(inst)], Imm4(inst), p))
    {
      DrawRowsPixels(b, s.I, s.V[RegX(inst)], s.V[RegY(inst)], Imm4(inst), p);
    }
  }

  /** Drawing the same sprite twice, with neither coordinate in VF, restores the framebuffer. */
  lemma DrawTwice(s: State, inst: Inst, rnd: nat)
    requires WellFormed(s) && inst.op == DRW && Execute(s, inst, rnd).Ok?
    requires RegX(inst) != 0xF && RegY(inst) != 0xF && s.I + Imm4(inst) <= FrameBase
    ensures var t := Execute(s, inst, rnd).value;
            Execute(t, inst, rnd).Ok? && Execute(t, inst, rnd).value.memory == s.memory
  {
    var b := Blit(s.memory, s.V[0xF]);
    DrawTwiceRestores(b, s.I, s.V[RegX(inst)], s.V[RegY(inst)], Imm4(inst));
  }

  /** A one-row sprite at a multiple of 8 sets VF exactly when the byte it lands on had a lit pixel. */
  lemma DrawAlignedCollision(s: State, inst: Inst, rnd: nat)
    requires WellFormed(s) && inst.op == DRW && Execute(s, inst, rnd).Ok?
    requires Imm4(inst) == 1 && s.V[RegX(inst)] % 8 == 0 && s.V[0xF] == 0
    ensures var x, y := s.V[RegX(inst)], s.V[RegY(inst)];
            Execute(s, inst, rnd).value.V[0xF] == if s.memory[FrameBase + RowOffset(x, y, 0)] != 0 then 1 else 0
  {
    var b := Blit(s.memory, s.V[0xF]);
    var x, y := s.V[RegX(inst)], s.V[RegY(inst)];
    assert DrawRows(b, s.I, x, y, 1) == DrawRow(b, s.I, x, y, 0);
    AlignedCollision(b, s.I, x, y, 0);
  }

  // --------------------------------------------------- initial state, loading

  /** `cip8_init`: `ip` at the entry point, an empty stack, `I` on the unpacked glyph, zeroed registers and keys. */
  lemma InitialRegisters(delayTimer: nat, soundTimer: nat)
    ensures var s := Initial(delayTimer, soundTimer);
            && s.ip == EntryPoint && s.I == GlyphAddr && StackValid(s) && s.sp == StackTop
            && (forall i :: 0 <= i < 16 ==> s.V[i] == 0 && s.keyboard[i] == 0)
            && !s.blocked && !s.halted && !s.displayChanged
  {
  }

  /** `cip8_init`: the font at `3 * d`, zeros from the end of the font on except for the glyph at 51. */
  lemma InitialFont(delayTimer: nat, soundTimer: nat)
    ensures var s := Initial(delayTimer, soundTimer);
            && (forall d :: 0 <= d < 16 ==>
                  s.memory[3 * d] == Glyphs[d].0 && s.memory[3 * d + 1] == Glyphs[d].1 && s.memory[3 * d + 2] == Glyphs[d].2)
            && (forall a :: 3 * |Glyphs| <= a < MemorySize && !(GlyphAddr <= a < GlyphAddr + 6) ==> s.memory[a] == 0)
  {
    FontLayout();
  }

  /** Glyph 0 (`F9 99 F0`) unpacks into the nibbles `F 9 9 9 F 0`. */
  lemma GlyphZeroUnpacked(m: seq<byte>)
    requires |m| == MemorySize && m[0] == 0xF9 && m[1] == 0x99 && m[2] == 0xF0
    ensures GlyphUnpacked(m, 0)[GlyphAddr .. GlyphAddr + 6] == [0xF, 0x9, 0x9, 0x9, 0xF, 0x0]
  {
  }

  /** `cip8_init`: glyph 0 unpacked into the nibbles `F 9 9 9 F 0` at 51. */
  lemma InitialGlyph(delayTimer: nat, soundTimer: nat)
    ensures var s := Initial(delayTimer, soundTimer);
            s.memory[GlyphAddr .. GlyphAddr + 6] == [0xF, 0x9, 0x9, 0x9, 0xF, 0x0]
  {
    var m := FontMemory();
    FontLayout();
    assert m[0] == 0xF9 && m[1] == 0x99 && m[2] == 0xF0 by {
      assert Glyphs[0] == (0xF9, 0x99, 0xF0);
    }
    GlyphZeroUnpacked(m);
  }

  /** The font table sits at `3 * d`, three bytes per digit, with zeros after it. */
  lemma FontLayout()
    ensures var m := FontMemory();
            && (forall d :: 0 <= d < 16 ==>
                  m[3 * d] == Glyphs[d].0 && m[3 * d + 1] == Glyphs[d].1 && m[3 * d + 2] == Glyphs[d].2)
            && (forall a :: 3 * |Glyphs| <= a < MemorySize ==> m[a] == 0)
  {
    var m := FontMemory();
    forall d | 0 <= d < 16
      ensures m[3 * d] == Glyphs[d].0 && m[3 * d + 1] == Glyphs[d].1 && m[3 * d + 2] == Glyphs[d].2
    {
      assert (3 * d) / 3 == d && (3 * d + 1) / 3 == d && (3 * d + 2) / 3 == d;
      assert (3 * d) % 3 == 0 && (3 * d + 1) % 3 == 1 && (3 * d + 2) % 3 == 2;
    }
  }

  /** The loader as intended: every word is stored with its high byte first, whatever the host (the big-endian branch of `Loaded`). */
  function LoadImage(memory: seq<byte>, program: seq<word>): (r: seq<byte>)
    requires |memory| == MemorySize && EntryPoint + 2 * |program| <= MemorySize
    ensures |r| == MemorySize
  {
    Loaded(memory, program, false)
  }

  /** After `LoadImage`, fetching at the entry point plus `2i` yields word `i` of the program. */
  lemma LoadImageFetches(s: State, program: seq<word>, i: nat)
    requires WellFormed(s) && EntryPoint + 2 * |program| <= MemorySize && i < |program|
    ensures var t := s.(memory := LoadImage(s.memory, program), ip := EntryPoint + 2 * i);
            WellFormed(t) && Fetch(t) == program[i]
  {
    var m := LoadImage(s.memory, program);
    var a := EntryPoint + 2 * i;
    assert (a - EntryPoint) / 2 == i && (a + 1 - EntryPoint) / 2 == i;
    assert m[a] == program[i] / 0x100 && m[a + 1] == program[i] % 0x100;
  }

  /** The loader as written, on a little-endian host: the fetched opcode has its bytes swapped. */
  lemma LittleEndianLoadSwaps(s: State)
    requires WellFormed(s)
    ensures var t := s.(memory := Loaded(s.memory, [0x6005], true), ip := EntryPoint);
            WellFormed(t) && Fetch(t) == 0x0560 && Decode(Fetch(t)).None?
  {
    var t := s.(memory := Loaded(s.memory, [0x6005], true), ip := EntryPoint);
    assert t.memory[EntryPoint] == 0x05 && t.memory[EntryPoint + 1] == 0x60;
  }

  /** `cip8_clear_program` undoes a load of the same size, whatever the host. */
  lemma ClearUndoesLoad(memory: seq<byte>, program: seq<word>, littleEndianHost: bool)
    requires |memory| == MemorySize && EntryPoint + 2 * |program| <= MemorySize
    ensures ClearedProgram(Loaded(memory, program, littleEndianHost), |program|)
         == ClearedProgram(memory, |program|)
  {
  }

  // ------------------------------------------------------------ call stack as written

  /** Where the source's `call_stack[sp]` points: `call_stack` is `memory + 0xEA0` and `sp` is absolute. */
  function CallStackAddress(sp: word): (a: nat)
    ensures a >= sp
  {
    StackLimit + sp
  }

  /** Every call the stack check lets through writes past the end of the 4096-byte memory. */
  lemma CallStackAsWrittenOutOfRange(sp: word)
    requires sp > StackLimit
    ensures CallStackAddress(sp - 1) >= MemorySize
  {
  }

  /** For every valid stack pointer the CALLS check lets through, both bytes the source writes at `call_stack[sp - 1]` and `call_stack[sp]` lie past the end of memory. */
  lemma CallsAsWrittenOverrun(s: State, inst: Inst)
    requires WellFormed(s) && StackValid(s) && inst.op == CALLS && Check(s, inst).None?
    ensures CallStackAddress(s.sp - 1) >= MemorySize && CallStackAddress(s.sp) >= MemorySize
  {
    CallOverflow(s, inst);
    CallStackAsWrittenOutOfRange(s.sp);
  }
}
