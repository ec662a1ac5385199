/**
 * The `Cip8` struct of cip8.h as a class whose methods update the memory
 * array and the registers in place, as the C functions do. Every method is
 * proved to leave the machine in the state `Semantics` describes.
 */
module Interpreter {
  import opened Results
  import opened Bits
  import opened Decoder
  import opened Display
  import opened Semantics

  class Cip8 {
    /** The 4096 bytes of memory: font from 0, program from `0x200`, stack `0xEA0..0xEFF`, framebuffer from `0xF00`. */
    const memory: array<byte>
    /** The registers `V0..VF`; `VF` doubles as the flag register. */
    const V: array<byte>
    /** One entry per key, non-zero while the key is held down (written by the host). */
    const keyboard: array<nat>
    var ip: word
    var sp: word
    var I: word
    var delayTimer: nat
    var soundTimer: nat
    var blocked: bool
    var halted: bool
    var displayChanged: bool

    ghost predicate Valid() {
      && memory.Length == MemorySize && V.Length == 16 && keyboard.Length == 16
      && memory != V
    }

    /** The machine as a `Semantics.State` value. */
    ghost function Abs(): (s: State)
      requires Valid()
      reads this, memory, V, keyboard
      ensures WellFormed(s)
    {
      State(memory[..], ip, sp, V[..], I, delayTimer, soundTimer, keyboard[..], blocked, halted, displayChanged)
    }

    /**
     * `cip8_init`: memory and keys zeroed, the packed font at `3 * d`, glyph 0
     * unpacked at 51 with `I` on it, `ip` at the entry point and an empty stack.
     * The source leaves the timers as they were; here they are parameters.
     */
    constructor (delayTimer: nat, soundTimer: nat)
      ensures Valid() && Abs() == Initial(delayTimer, soundTimer)
      ensures fresh(memory) && fresh(V) && fresh(keyboard)
    {
      memory := new byte[MemorySize];
      V := new byte[16];
      keyboard := new nat[16];
      ip, sp := EntryPoint, StackTop;
      this.delayTimer, this.soundTimer := delayTimer, soundTimer;
      blocked, halted, displayChanged := false, false, false;
      I := 0;
      new;
      ZeroKeysAndMemory();
      WriteFont();
      UnpackGlyph(0);
      I := GlyphAddr;
    }

    /** The first two loops of `cip8_init`: every key released and every memory byte 0. */
    method ZeroKeysAndMemory()
      requires Valid()
      modifies memory, keyboard
      ensures keyboard[..] == seq(16, _ => 0) && memory[..] == seq(MemorySize, _ => 0)
    {
      for i := 0 to 16
        invariant forall j :: 0 <= j < i ==> keyboard[j] == 0
      {
        keyboard[i] := 0;
      }
      for i := 0 to MemorySize
        invariant forall a :: 0 <= a < i ==> memory[a] == 0
        invariant keyboard[..] == seq(16, _ => 0)
      {
        memory[i] := 0;
      }
    }

    /** The font loop of `cip8_init` on zeroed memory: glyph `d` at `3 * d`, and `Vd` zeroed. */
    method WriteFont()
      requires Valid() && memory[..] == seq(MemorySize, _ => 0)
      modifies memory, V
      ensures memory[..] == FontMemory() && V[..] == seq(16, _ => 0)
    {
      assert memory[..] == FontPrefix(0);
      for i := 0 to 16
        invariant memory[..] == FontPrefix(i)
        invariant V[..i] == seq(i, _ => 0)
      {
        var glyph := Glyphs[i];
        ghost var before := memory[..];
        memory[3 * i] := glyph.0;
        memory[3 * i + 1] := glyph.1;
        memory[3 * i + 2] := glyph.2;
        V[i] := 0;
        assert memory[..] == before[3 * i := glyph.0][3 * i + 1 := glyph.1][3 * i + 2 := glyph.2];
        FontPrefixStep(i);
      }
      assert FontPrefix(16) == FontMemory();
      assert V[..] == V[..16];
    }

    /** The nibbles of glyph `d`, one per byte at 51, as `cip8_init` and SETISPR write them. */
    method UnpackGlyph(d: byte)
      requires Valid() && d < 16
      modifies memory
      ensures memory[..] == GlyphUnpacked(old(memory[..]), d)
    {
      memory[GlyphAddr] := memory[3 * d] / 0x10;
      memory[GlyphAddr + 1] := memory[3 * d] % 0x10;
      memory[GlyphAddr + 2] := memory[3 * d + 1] / 0x10;
      memory[GlyphAddr + 3] := memory[3 * d + 1] % 0x10;
      memory[GlyphAddr + 4] := memory[3 * d + 2] / 0x10;
      memory[GlyphAddr + 5] := memory[3 * d + 2] % 0x10;
    }

    /**
     * `cip8_load_program`: word `i` of the program is stored at `0x200 + 2 * i`,
     * in the byte order of the host, whose endianness is a parameter here.
     */
    method LoadProgram(program: seq<word>, littleEndianHost: bool)
      requires Valid() && EntryPoint + 2 * |program| <= MemorySize
      modifies memory
      ensures memory[..] == Loaded(old(memory[..]), program, littleEndianHost)
    {
      if littleEndianHost {
        LoadLowByteFirst(program);
      } else {
        LoadHighByteFirst(program);
      }
    }

    /** The loop `cip8_load_program` runs on a little-endian host: the low byte of each word first. */
    method LoadLowByteFirst(program: seq<word>)
      requires Valid() && EntryPoint + 2 * |program| <= MemorySize
      modifies memory
      ensures memory[..] == Loaded(old(memory[..]), program, true)
    {
      LoadedNothing(memory[..], true);
      for i := 0 to |program|
        invariant memory[..] == Loaded(old(memory[..]), program[..i], true)
      {
        ghost var before: seq<byte> := memory[..];
        var b0: byte, b1: byte := program[i] % 0x100, program[i] / 0x100;
        memory[EntryPoint + 2 * i] := b0;
        memory[EntryPoint + 2 * i + 1] := b1;
        assert memory[..] == before[EntryPoint + 2 * i := b0][EntryPoint + 2 * i + 1 := b1];
        LoadedStep(old(memory[..]), program, true, i);
      }
      assert program[..|program|] == program;
    }

    /** The loop `cip8_load_program` runs on a big-endian host: the high byte of each word first. */
    method LoadHighByteFirst(program: seq<word>)
      requires Valid() && EntryPoint + 2 * |program| <= MemorySize
      modifies memory
      ensures memory[..] == Loaded(old(memory[..]), program, false)
    {
      LoadedNothing(memory[..], false);
      for i := 0 to |program|
        invariant memory[..] == Loaded(old(memory[..]), program[..i], false)
      {
        ghost var before: seq<byte> := memory[..];
        var b0: byte, b1: byte := program[i] / 0x100, program[i] % 0x100;
        memory[EntryPoint + 2 * i] := b0;
        memory[EntryPoint + 2 * i + 1] := b1;
        assert memory[..] == before[EntryPoint + 2 * i := b0][EntryPoint + 2 * i + 1 := b1];
        LoadedStep(old(memory[..]), program, false, i);
      }
      assert program[..|program|] == program;
    }

    /** `cip8_clear_program`: the `size` words from `0x200` on are zeroed. */
    method ClearProgram(size: nat)
      requires Valid() && EntryPoint + 2 * size <= MemorySize
      modifies memory
      ensures memory[..] == ClearedProgram(old(memory[..]), size)
    {
      for i := 0 to size
        invariant forall a :: 0 <= a < MemorySize ==>
                    memory[a] == if EntryPoint <= a < EntryPoint + 2 * i then 0 else old(memory[a])
      {
        memory[EntryPoint + 2 * i] := 0;
        memory[EntryPoint + 2 * i + 1] := 0;
      }
    }

    /** `cip8_clear_display`: the framebuffer, row by row, set to 0. */
    method ClearDisplay()
      requires Valid()
      modifies memory
      ensures memory[..] == ClearedFrame(old(memory[..]))
    {
      for y := 0 to 32
        invariant forall a :: 0 <= a < MemorySize ==>
                    memory[a] == if FrameBase <= a < FrameBase + 8 * y then 0 else old(memory[a])
      {
        for x := 0 to 8
          invariant forall a :: 0 <= a < MemorySize ==>
                      memory[a] == if FrameBase <= a < FrameBase + 8 * y + x then 0 else old(memory[a])
        {
          memory[FrameBase + x + y * 8] := 0;
        }
      }
      ghost var cleared := ClearedFrame(old(memory[..]));
      forall a | 0 <= a < FrameBase
        ensures cleared[a] == old(memory[a])
      {
        assert cleared[..FrameBase][a] == old(memory[..])[..FrameBase][a];
      }
    }

    /**
     * The instructions of `cip8_execute` that act on `ip`, the stack, the keys or
     * the whole display. Where the source would fail an assertion or index past
     * an array, the fault is returned and nothing is changed.
     */
    method ExecuteControl(inst: Inst) returns (fault: Option<Fault>)
      requires Valid() && IsControl(inst.op)
      modifies this, memory
      ensures Valid()
      ensures fault == Check(old(Abs()), inst)
      ensures fault.None? ==> Abs() == ApplyControl(old(Abs()), inst)
      ensures fault.Some? ==> Abs() == old(Abs())
    {
      var x, y, nn, nnn := RegX(inst), RegY(inst), Imm8(inst), inst.operand;
      fault := None;
      match inst.op {
        case CLD =>
          ClearDisplay();
        case RET =>
          if sp + 2 > StackTop {
            return Some(StackUnderflow);
          }
          sp := sp + 2;
          ip := ReturnAddress(memory[..], sp - 2);
        case GOTO =>
          ip := nnn;
        case CALLS =>
          if sp <= StackLimit {
            return Some(StackOverflow);
          }
          if sp >= MemorySize {
            return Some(MemoryOutOfRange);
          }
          memory[sp - 1] := (ip / 0x10) % 0x100;
          memory[sp] := ip % 0x10;
          ip := nnn;
          sp := sp - 2;
        case JEQ =>
          if V[x] == nn {
            ip := Advance(ip, 2);
          }
        case JNEQ =>
          if V[x] != nn {
            ip := Advance(ip, 2);
          }
        case JVEQ =>
          if V[x] == V[y] {
            ip := Advance(ip, 2);
          }
        case JVNEQ =>
          if V[x] != V[y] {
            ip := Advance(ip, 2);
          }
        case JMV0 =>
          ip := V[0] + nnn;
        case KEYD =>
          if V[x] >= 16 {
            return Some(KeyOutOfRange(V[x]));
          }
          if keyboard[V[x]] != 0 {
            ip := Advance(ip, 2);
          }
        case KEYU =>
          if V[x] >= 16 {
            return Some(KeyOutOfRange(V[x]));
          }
          if keyboard[V[x]] == 0 {
            ip := Advance(ip, 2);
          }
        case GETK =>
          if V[x] >= 16 {
            return Some(KeyOutOfRange(V[x]));
          }
          blocked := true;
          ip := Advance(ip, -2);
          if keyboard[V[x]] != 0 {
            blocked := false;
          }
        case _ =>
          assert false;
      }
    }

    /** The instructions of `cip8_execute` that change only registers and timers. */
    method ExecuteRegisters(inst: Inst, rnd: nat) returns (fault: Option<Fault>)
      requires Valid() && !IsControl(inst.op) && !IsMemory(inst.op)
      modifies this, V
      ensures Valid()
      ensures fault == Check(old(Abs()), inst)
      ensures fault.None? ==> Abs() == ApplyRegisters(old(Abs()), inst, rnd)
      ensures fault.Some? ==> Abs() == old(Abs())
    {
      if IsArithmetic(inst.op) {
        ExecuteArithmetic(inst);
        fault := None;
      } else {
        fault := ExecuteOthers(inst, rnd);
      }
    }

    /** The register-to-register and immediate arithmetic of `cip8_execute`; none of it can fault. */
    method ExecuteArithmetic(inst: Inst)
      requires Valid() && IsArithmetic(inst.op)
      modifies V
      ensures Check(old(Abs()), inst).None? && Abs() == ApplyRegisters(old(Abs()), inst, 0)
    {
      var x, y, nn := RegX(inst), RegY(inst), Imm8(inst);
      match inst.op {
        case MOV =>
          V[x] := nn;
        case ADD =>
          V[x] := (V[x] as int + nn) % 0x100;
        case ASS =>
          V[x] := V[y];
        case OR =>
          V[x] := OrByte(V[x], V[y]);
        case AND =>
          V[x] := AndByte(V[x], V[y]);
        case XOR =>
          V[x] := XorByte(V[x], V[y]);
        case ADDC =>
          var r := V[x] as int + V[y];
          V[x] := (V[x] as int + V[y]) % 0x100;
          V[0xF] := if V[x] != r then 1 else 0;
        case SUBC =>
          var r := (V[x] as int - V[y]) % 0x1_0000;
          V[x] := (V[x] as int - V[y]) % 0x100;
          V[0xF] := if V[x] == r then 1 else 0;
        case SUBR =>
          var r := (V[y] as int - V[x]) % 0x1_0000;
          V[x] := (V[y] as int - V[x]) % 0x100;
          V[0xF] := if V[x] == r then 1 else 0;
        case SHR =>
          var low := V[x] % 2;
          V[x] := Shr(V[x], 1);
          V[0xF] := low;
        case SHL =>
          var high := if V[x] >= 0x80 then 1 else 0;
          V[x] := Low(Shl(V[x], 1), 8);
          V[0xF] := high;
        case _ =>
          assert false;
      }
    }

    /** SETI, RND, the timer instructions and ADDI. */
    method ExecuteOthers(inst: Inst, rnd: nat) returns (fault: Option<Fault>)
      requires Valid() && !IsControl(inst.op) && !IsMemory(inst.op) && !IsArithmetic(inst.op)
      modifies this, V
      ensures Valid()
      ensures fault == Check(old(Abs()), inst)
      ensures fault.None? ==> Abs() == ApplyRegisters(old(Abs()), inst, rnd)
      ensures fault.Some? ==> Abs() == old(Abs())
    {
      var x, nn, nnn := RegX(inst), Imm8(inst), inst.operand;
      fault := None;
      match inst.op {
        case SETI =>
          I := nnn;
        case RND =>
          if nn == 0 {
            return Some(ZeroModulus);
          }
          V[x] := rnd % nn;
        case GETDT =>
          V[x] := delayTimer % 0x100;
        case SETDT =>
          delayTimer := V[x];
        case SETST =>
          soundTimer := V[x];
        case ADDI =>
          I := Advance(I, V[x]);
        case _ =>
          assert false;
      }
    }

    /**
     * BCD, DUMP, LOAD, DRW and SETISPR: the instructions that go through `I`.
     * An index past the memory or the framebuffer, or a digit above 15 for
     * the font pointer, is returned as a fault before anything is written.
     */
    method ExecuteMemory(inst: Inst) returns (fault: Option<Fault>)
      requires Valid() && IsMemory(inst.op)
      modifies this, memory, V
      ensures Valid()
      ensures fault == Check(old(Abs()), inst)
      ensures fault.None? ==> Abs() == ApplyMemory(old(Abs()), inst)
      ensures fault.Some? ==> Abs() == old(Abs())
    {
      var x, y, n := RegX(inst), RegY(inst), Imm4(inst);
      fault := None;
      match inst.op {
        case BCD =>
          if I + 2 >= MemorySize {
            return Some(MemoryOutOfRange);
          }
          var a := V[x];
          memory[I] := a / 100;
          memory[I + 1] := (a % 100) / 10;
          memory[I + 2] := a % 10;
        case DUMP =>
          if I + x >= MemorySize {
            return Some(MemoryOutOfRange);
          }
          Dump(x);
        case LOAD =>
          if I + x >= MemorySize {
            return Some(MemoryOutOfRange);
          }
          Load(x);
        case DRW =>
          if n > 0 && I + n > MemorySize {
            return Some(MemoryOutOfRange);
          }
          if !DrawFits(V[x], V[y], n) {
            return Some(DisplayOutOfRange);
          }
          displayChanged := true;
          Draw(V[x], V[y], n);
        case SETISPR =>
          if V[x] > 15 {
            return Some(BadFontIndex(V[x]));
          }
          UnpackGlyph(V[x]);
          I := GlyphAddr;
        case _ =>
          assert false;
      }
    }

    /** The DUMP loop: `V0..Vx` stored from `memory[I]` on. */
    method Dump(x: nat)
      requires Valid() && x < 16 && I + x < MemorySize
      modifies memory
      ensures memory[..] == Dumped(old(memory[..]), V[..], I, x)
    {
      for i := 0 to x + 1
        invariant forall a :: 0 <= a < MemorySize ==>
                    memory[a] == if I <= a < I + i then V[a - I] else old(memory[a])
      {
        memory[I + i] := V[i];
      }
    }

    /** The LOAD loop: `V0..Vx` read from `memory[I]` on. */
    method Load(x: nat)
      requires Valid() && x < 16 && I + x < MemorySize
      modifies V
      ensures V[..] == LoadedRegisters(memory[..], old(V[..]), I, x)
    {
      for i := 0 to x + 1
        invariant forall j :: 0 <= j < 16 ==> V[j] == if j < i then memory[I + j] else old(V[j])
      {
        V[i] := memory[I + i];
      }
    }

    /**
     * The DRW loop: row `hi` of the sprite at `I`, its bits reversed, XORed
     * into framebuffer row `(y + hi) % 32` at column `x`, over two bytes when
     * `x` is not a multiple of 8; the source's collision tests set VF.
     */
    method Draw(x: byte, y: byte, n: nat)
      requires Valid() && (n == 0 || I + n <= MemorySize) && DrawFits(x, y, n)
      modifies memory, V
      ensures Blit(memory[..], V[0xF]) == DrawRows(Blit(old(memory[..]), old(V[0xF])), I, x, y, n)
      ensures V[..] == old(V[..])[0xF := V[0xF]]
    {
      ghost var start: FullBlit, registers: Registers := Blit(memory[..], V[0xF]), V[..];
      for hi := 0 to n
        invariant Drawn(start, registers, x, y, hi)
      {
        DrawNextRow(x, y, n, hi, start, registers);
      }
    }

    /** The first `hi` rows of the loop of DRW are drawn, starting from `start`, and only VF has changed among the registers. */
    ghost predicate Drawn(start: FullBlit, registers: Registers, x: byte, y: byte, hi: nat)
      requires V.Length == 16
      reads this, memory, V
    {
      && (hi == 0 || I + hi <= MemorySize) && DrawFits(x, y, hi)
      && Blit(memory[..], V[0xF]) == DrawRows(start, I, x, y, hi)
      && V[..] == registers[0xF := V[0xF]]
    }

    /** Row `hi` drawn after the rows before it. */
    method DrawNextRow(x: byte, y: byte, n: nat, hi: nat, ghost start: FullBlit, ghost registers: Registers)
      requires Valid() && hi < n && I + n <= MemorySize && DrawFits(x, y, n)
      requires Drawn(start, registers, x, y, hi)
      modifies memory, V
      ensures Drawn(start, registers, x, y, hi + 1)
    {
      DrawFitsPrefix(x, y, n, hi);
      DrawRowsUnfold(start, I, x, y, hi);
      ghost var drawn := DrawRows(start, I, x, y, hi);
      assert Blit(memory[..], V[0xF]) == drawn;
      DrawSpriteRow(x, y, hi);
      assert Blit(memory[..], V[0xF]) == DrawRow(drawn, I, x, y, hi);
    }

    /** One iteration of the DRW loop. */
    method DrawSpriteRow(x: byte, y: byte, hi: nat)
      requires Valid() && I + hi < MemorySize && RowFits(x, y, hi)
      modifies memory, V
      ensures Blit(memory[..], V[0xF]) == DrawRow(Blit(old(memory[..]), old(V[0xF])), I, x, y, hi)
      ensures V[..] == old(V[..])[0xF := V[0xF]]
    {
      if x % 8 == 0 {
        XorAligned(x, y, hi);
      } else {
        XorSplit(x, y, hi);
      }
    }

    /** The aligned case: the reversed sprite byte XORed into one framebuffer byte. */
    method XorAligned(x: byte, y: byte, hi: nat)
      requires Valid() && I + hi < MemorySize && RowFits(x, y, hi) && x % 8 == 0
      modifies memory, V
      ensures Blit(memory[..], V[0xF]) == DrawRow(Blit(old(memory[..]), old(V[0xF])), I, x, y, hi)
      ensures V[..] == old(V[..])[0xF := V[0xF]]
    {
      var sprite := Reverse8(memory[I + hi]);
      var at := FrameBase + RowOffset(x, y, hi);
      memory[at] := XorByte(memory[at], sprite);
      if memory[at] != sprite {
        V[0xF] := 1;
      }
    }

    /**
     * The unaligned case: the sprite byte shifted left by `x % 8` into one
     * byte (truncated to 8 bits) and shifted right by `8 - x % 8` into the
     * next; the collision test shifts both back in unbounded integers.
     */
    method XorSplit(x: byte, y: byte, hi: nat)
      requires Valid() && I + hi < MemorySize && RowFits(x, y, hi) && x % 8 != 0
      modifies memory, V
      ensures Blit(memory[..], V[0xF]) == DrawRow(Blit(old(memory[..]), old(V[0xF])), I, x, y, hi)
      ensures V[..] == old(V[..])[0xF := V[0xF]]
    {
      var sprite := Reverse8(memory[I + hi]);
      var at, s := FrameBase + RowOffset(x, y, hi), x % 8;
      memory[at] := Low(Xor(memory[at], Shl(sprite, s)), 8);
      memory[at + 1] := XorByte(memory[at + 1], Shr(sprite, 8 - s));
      if Or(Shl(memory[at], s), Shr(memory[at + 1], 8 - s)) != sprite {
        V[0xF] := 1;
      }
    }

    /**
     * `cip8_execute`. Where the source would fail an assertion or index past
     * an array, the fault is returned and the machine is left as it was.
     */
    method Execute(inst: Inst, rnd: nat) returns (fault: Option<Fault>)
      requires Valid()
      modifies this, memory, V
      ensures Valid()
      ensures match Semantics.Execute(old(Abs()), inst, rnd)
              case Err(f) => fault == Some(f) && Abs() == old(Abs())
              case Ok(t) => fault == None && Abs() == t
    {
      if IsControl(inst.op) {
        fault := ExecuteControl(inst);
      } else if IsMemory(inst.op) {
        fault := ExecuteMemory(inst);
      } else {
        fault := ExecuteRegisters(inst, rnd);
      }
    }

    /**
     * `cip8_step`: the big-endian opcode at `ip` is decoded, `ip` moves past
     * it and the instruction is executed. A fetch past the memory, an unknown
     * opcode or a fault of the instruction leaves the machine as it was.
     */
    method Step(rnd: nat) returns (fault: Option<Fault>)
      requires Valid()
      modifies this, memory, V
      ensures Valid()
      ensures match Semantics.Step(old(Abs()), rnd)
              case Err(f) => fault == Some(f) && Abs() == old(Abs())
              case Ok(t) => fault == None && Abs() == t
    {
      if ip as int + 1 >= MemorySize {
        return Some(FetchOutOfRange);
      }
      OrDisjoint(memory[ip], memory[ip + 1], 8);
      var code: word := Or(Shl(memory[ip], 8), memory[ip + 1]);
      assert code == Fetch(Abs());
      match Decode(code) {
        case None =>
          fault := Some(UnknownOpcode(code));
        case Some(inst) =>
          var was := ip;
          ip := Advance(ip, 2);
          fault := Execute(inst, rnd);
          if fault.Some? {
            ip := was;
          }
      }
    }

    /** `cip8_run`: `MaxSteps` steps, one random value each, stopping at the first fault. */
    method Run(rnds: seq<nat>) returns (fault: Option<Fault>)
      requires Valid() && |rnds| == MaxSteps
      modifies this, memory, V
      ensures Valid()
      ensures match Semantics.Run(old(Abs()), rnds)
              case Err(f) => fault == Some(f)
              case Ok(t) => fault == None && Abs() == t
    {
      fault := None;
      for i := 0 to |rnds|
        invariant fault.None?
        invariant Semantics.Run(old(Abs()), rnds) == Semantics.Run(Abs(), rnds[i..])
      {
        assert rnds[i..][1..] == rnds[i + 1..];
        fault := Step(rnds[i]);
        if fault.Some? {
          return;
        }
      }
    }
  }

  /** The instructions that compute a register from registers and immediates alone. */
  predicate IsArithmetic(op: Op) {
    match op
    case MOV | ADD | ASS | OR | AND | XOR | ADDC | SUBC | SUBR | SHR | SHL => true
    case _ => false
  }

  /** A blit over the whole memory, and a full register file: the ghost state the DRW loop starts from. */
  type FullBlit = b: Blit | |b.memory| == MemorySize witness Blit(seq(MemorySize, _ => 0), 0)
  type Registers = r: seq<byte> | |r| == 16 witness seq(16, _ => 0)

  /** Loading the empty program changes nothing. */
  lemma LoadedNothing(memory: seq<byte>, littleEndianHost: bool)
    requires |memory| == MemorySize
    ensures Loaded(memory, [], littleEndianHost) == memory
  {
  }

  /** Loading one more word writes its two bytes after the words before it. */
  lemma LoadedStep(memory: seq<byte>, program: seq<word>, littleEndianHost: bool, i: nat)
    requires |memory| == MemorySize && EntryPoint + 2 * |program| <= MemorySize && i < |program|
    ensures var at, w, prefix := EntryPoint + 2 * i, program[i], Loaded(memory, program[..i], littleEndianHost);
            var b0: byte, b1: byte := if littleEndianHost then w % 0x100 else w / 0x100, if littleEndianHost then w / 0x100 else w % 0x100;
            Loaded(memory, program[..i + 1], littleEndianHost) == prefix[at := b0][at + 1 := b1]
  {
    var at, w := EntryPoint + 2 * i, program[i];
    var r := Loaded(memory, program[..i + 1], littleEndianHost);
    assert (at - EntryPoint) / 2 == i && (at - EntryPoint) % 2 == 0;
    assert (at + 1 - EntryPoint) / 2 == i && (at + 1 - EntryPoint) % 2 == 1;
    forall a | 0 <= a < MemorySize && EntryPoint <= a < at
      ensures r[a] == Loaded(memory, program[..i], littleEndianHost)[a]
    {
      assert program[..i + 1][(a - EntryPoint) / 2] == program[..i][(a - EntryPoint) / 2];
    }
  }

  /** Memory holding the glyphs of the digits below `d` and zeros elsewhere. */
  ghost function FontPrefix(d: nat): (r: seq<byte>)
    requires d <= 16
  {
    seq(MemorySize, a requires 0 <= a < MemorySize => if a < 3 * d then FontByte(a) else 0)
  }

  /** Writing the glyph of digit `d` extends the font by one digit. */
  lemma FontPrefixStep(d: nat)
    requires d < 16
    ensures FontPrefix(d)[3 * d := Glyphs[d].0][3 * d + 1 := Glyphs[d].1][3 * d + 2 := Glyphs[d].2]
         == FontPrefix(d + 1)
  {
    assert (3 * d) / 3 == d && (3 * d + 1) / 3 == d && (3 * d + 2) / 3 == d;
  }
}
