/**
 * The machine state of cip8.h and the effect of each instruction on it,
 * as pure functions. `Interpreter.Cip8` performs the same steps in place
 * and is proved to agree with these definitions.
 *
 * Where the source would crash on an assertion or index outside an array,
 * the step yields a `Fault` instead and the state is not changed.
 */
module Semantics {
  import opened Results
  import opened Bits
  import opened Decoder
  import opened Display

  /** Address of the first instruction of a loaded program. */
  const EntryPoint := 0x200
  /** Initial stack pointer: the top of the stack region `0xEA0..0xEFF`. */
  const StackTop := 0xEFF
  /** A call is refused once the stack pointer has come down to this address. */
  const StackLimit := 0xEA0
  /** Where the unpacked glyph of the font-pointer instruction is written. */
  const GlyphAddr := 51
  /** Number of instructions `cip8_run` executes. */
  const MaxSteps := 20

  /** The packed 4x5 font: three bytes per hexadecimal digit, stored at `memory[3 * d ..]`. */
  const Glyphs: seq<(byte, byte, byte)> := [
    (0xF9, 0x99, 0xF0), (0x46, 0x44, 0xE0), (0xF8, 0xF1, 0xF0), (0xF8, 0xF8, 0xF0),
    (0x99, 0xF8, 0x80), (0xF1, 0xF8, 0xF0), (0xF1, 0xF9, 0xF0), (0xF8, 0xF8, 0x80),
    (0xF9, 0xF9, 0xF0), (0xF9, 0xF8, 0xF0), (0xF9, 0xF9, 0x90), (0x79, 0xF9, 0x70),
    (0xE1, 0x11, 0xE0), (0x79, 0x99, 0x70), (0xF1, 0xF1, 0xF0), (0xF1, 0xF1, 0x10)]

  /** The font's byte at address `a`. */
  function FontByte(a: nat): (r: byte)
    requires a < 3 * |Glyphs|
  {
    var g := Glyphs[a / 3];
    if a % 3 == 0 then g.0 else if a % 3 == 1 then g.1 else g.2
  }

  /** The fields of the `Cip8` struct; `keyboard` entries are non-zero while a key is down. */
  datatype State = State(
    memory: seq<byte>,
    ip: word,
    sp: word,
    V: seq<byte>,
    I: word,
    delayTimer: nat,
    soundTimer: nat,
    keyboard: seq<nat>,
    blocked: bool,
    halted: bool,
    displayChanged: bool)

  predicate WellFormed(s: State) {
    |s.memory| == MemorySize && |s.V| == 16 && |s.keyboard| == 16
  }

  /** Why a step cannot be carried out. */
  datatype Fault =
    | FetchOutOfRange      // `memory[ip + 1]` lies past the memory
    | UnknownOpcode(code: word)
    | StackOverflow        // the assertion of CALLS
    | StackUnderflow       // RET with nothing on the stack
    | KeyOutOfRange(key: byte)
    | MemoryOutOfRange
    | DisplayOutOfRange    // a sprite row would land past the framebuffer
    | BadFontIndex(digit: byte)
    | ZeroModulus          // RND with `nn == 0`

  /** The fault, if any, that executing `inst` in `s` runs into; `ip` plays no part. */
  function Check(s: State, inst: Inst): (r: Option<Fault>)
    requires WellFormed(s)
  {
    var x, y, nn, n := RegX(inst), RegY(inst), Imm8(inst), Imm4(inst);
    match inst.op
    case RET => if s.sp + 2 > StackTop then Some(StackUnderflow) else None
    case CALLS =>
      if s.sp <= StackLimit then Some(StackOverflow)
      else if s.sp >= MemorySize then Some(MemoryOutOfRange)
      else None
    case RND => if nn == 0 then Some(ZeroModulus) else None
    case KEYD | KEYU | GETK => if s.V[x] >= 16 then Some(KeyOutOfRange(s.V[x])) else None
    case BCD => if s.I + 2 >= MemorySize then Some(MemoryOutOfRange) else None
    case DUMP | LOAD => if s.I + x >= MemorySize then Some(MemoryOutOfRange) else None
    case DRW =>
      if n > 0 && s.I + n > MemorySize then Some(MemoryOutOfRange)
      else if !DrawFits(s.V[x], s.V[y], n) then Some(DisplayOutOfRange)
      else None
    case SETISPR => if s.V[x] > 15 then Some(BadFontIndex(s.V[x])) else None
    case _ => None
  }

  /** `ip + d` in the 16-bit address type. */
  function Advance(ip: word, d: int): (r: word) {
    (ip + d) % 0x1_0000
  }

  /** The new byte in `Vx` and the new `VF` of the register-to-register operations with a flag. */
  function AddWithCarry(a: byte, b: byte): (r: (byte, byte)) {
    var wide := a + b;
    var v := (a + b) % 0x100;
    (v, if v != wide then 1 else 0)
  }

  function SubWithBorrow(a: byte, b: byte): (r: (byte, byte)) {
    var wide := (a - b) % 0x1_0000;
    var v := (a - b) % 0x100;
    (v, if v == wide then 1 else 0)
  }

  /** Memory after `cip8_clear_program`: the first `size` words from the entry point are zero. */
  function ClearedProgram(memory: seq<byte>, size: nat): (r: seq<byte>)
    requires |memory| == MemorySize && EntryPoint + 2 * size <= MemorySize
  {
    seq(MemorySize, i requires 0 <= i < MemorySize =>
      if EntryPoint <= i < EntryPoint + 2 * size then 0 else memory[i])
  }

  /**
   * Memory after `cip8_load_program`: word `i` goes to `EntryPoint + 2 * i`,
   * its low byte first when `littleEndianHost` holds, its high byte first otherwise.
   */
  function Loaded(memory: seq<byte>, program: seq<word>, littleEndianHost: bool): (r: seq<byte>)
    requires |memory| == MemorySize && EntryPoint + 2 * |program| <= MemorySize
  {
    seq(MemorySize, a requires 0 <= a < MemorySize =>
      if EntryPoint <= a < EntryPoint + 2 * |program| then
        var w := program[(a - EntryPoint) / 2];
        if ((a - EntryPoint) % 2 == 0) != littleEndianHost then w / 0x100 else w % 0x100
      else memory[a])
  }

  /** Memory after the glyph of digit `d` is unpacked, one nibble per byte, at `GlyphAddr`. */
  function GlyphUnpacked(memory: seq<byte>, d: nat): (r: seq<byte>)
    requires |memory| == MemorySize && d < 16
    ensures |r| == MemorySize
    ensures forall j :: 0 <= j < 3 ==>
              (r[GlyphAddr + 2 * j] as int) * 0x10 + r[GlyphAddr + 2 * j + 1] == memory[3 * d + j]
              && r[GlyphAddr + 2 * j + 1] < 0x10
    ensures forall a :: 0 <= a < MemorySize && !(GlyphAddr <= a < GlyphAddr + 6) ==> r[a] == memory[a]
  {
    var b0, b1, b2 := memory[3 * d], memory[3 * d + 1], memory[3 * d + 2];
    memory[GlyphAddr := b0 / 0x10][GlyphAddr + 1 := b0 % 0x10]
          [GlyphAddr + 2 := b1 / 0x10][GlyphAddr + 3 := b1 % 0x10]
          [GlyphAddr + 4 := b2 / 0x10][GlyphAddr + 5 := b2 % 0x10]
  }

  /** Memory after DUMP: `V0..Vx` copied to `memory[I..I+x]`. */
  function Dumped(memory: seq<byte>, V: seq<byte>, I: nat, x: nat): (r: seq<byte>)
    requires |memory| == MemorySize && |V| == 16 && x < 16 && I + x < MemorySize
  {
    seq(MemorySize, a requires 0 <= a < MemorySize =>
      if I <= a <= I + x then V[a - I] else memory[a])
  }

  /** Registers after LOAD: `V0..Vx` read from `memory[I..I+x]`. */
  function LoadedRegisters(memory: seq<byte>, V: seq<byte>, I: nat, x: nat): (r: seq<byte>)
    requires |memory| == MemorySize && |V| == 16 && x < 16 && I + x < MemorySize
  {
    seq(16, i requires 0 <= i < 16 => if i <= x then memory[I + i] else V[i])
  }

  /** Memory after BCD: the three decimal digits of `a` at `I`, `I+1`, `I+2`. */
  function BcdStored(memory: seq<byte>, I: nat, a: byte): (r: seq<byte>)
    requires |memory| == MemorySize && I + 2 < MemorySize
  {
    memory[I := a / 100][I + 1 := (a % 100) / 10][I + 2 := a % 10]
  }

  /** The address RET returns to: the two stack bytes above `sp`, high part first. */
  function ReturnAddress(memory: seq<byte>, sp: nat): (r: word)
    requires |memory| == MemorySize && sp + 2 < MemorySize
  {
    Or(Shl(memory[sp + 1], 4), memory[sp + 2])
  }

  /** The instructions that act on `ip`, the stack, the keyboard or the whole display. */
  predicate IsControl(op: Op) {
    match op
    case CLD | RET | GOTO | CALLS | JEQ | JNEQ | JVEQ | JVNEQ | JMV0 | KEYD | KEYU | GETK => true
    case _ => false
  }

  /** The instructions that read or write memory through `I` (and draw). */
  predicate IsMemory(op: Op) {
    match op
    case BCD | DUMP | LOAD | DRW | SETISPR => true
    case _ => false
  }

  /**
   * The effect of `cip8_execute` on a state where `Check` finds no fault.
   * `rnd` stands for the value `rand()` returns.
   */
  function Apply(s: State, inst: Inst, rnd: nat): (r: State)
    requires WellFormed(s) && Check(s, inst).None?
    ensures WellFormed(r) && r.keyboard == s.keyboard && r.halted == s.halted
    ensures inst.op != CALLS && inst.op != RET ==> r.sp == s.sp
  {
    if IsControl(inst.op) then ApplyControl(s, inst)
    else if IsMemory(inst.op) then ApplyMemory(s, inst)
    else ApplyRegisters(s, inst, rnd)
  }

  function ApplyControl(s: State, inst: Inst): (r: State)
    requires WellFormed(s) && Check(s, inst).None? && IsControl(inst.op)
    ensures WellFormed(r) && r.keyboard == s.keyboard && r.halted == s.halted
    ensures r.V == s.V && r.I == s.I && r.delayTimer == s.delayTimer && r.soundTimer == s.soundTimer
    ensures r.displayChanged == s.displayChanged
    ensures inst.op != CALLS && inst.op != RET ==> r.sp == s.sp
    ensures inst.op != CALLS && inst.op != CLD ==> r.memory == s.memory
  {
    var x, y, nn, nnn := RegX(inst), RegY(inst), Imm8(inst), inst.operand;
    match inst.op
    case CLD => s.(memory := ClearedFrame(s.memory))
    case RET => s.(ip := ReturnAddress(s.memory, s.sp), sp := s.sp + 2)
    case GOTO => s.(ip := nnn)
    case CALLS =>
      s.(memory := s.memory[s.sp - 1 := (s.ip / 0x10) % 0x100][s.sp := s.ip % 0x10],
         ip := nnn, sp := s.sp - 2)
    case JEQ => if s.V[x] == nn then s.(ip := Advance(s.ip, 2)) else s
    case JNEQ => if s.V[x] != nn then s.(ip := Advance(s.ip, 2)) else s
    case JVEQ => if s.V[x] == s.V[y] then s.(ip := Advance(s.ip, 2)) else s
    case JVNEQ => if s.V[x] != s.V[y] then s.(ip := Advance(s.ip, 2)) else s
    case JMV0 => s.(ip := s.V[0] + nnn)
    case KEYD => if s.keyboard[s.V[x]] != 0 then s.(ip := Advance(s.ip, 2)) else s
    case KEYU => if s.keyboard[s.V[x]] == 0 then s.(ip := Advance(s.ip, 2)) else s
    case GETK => s.(blocked := s.keyboard[s.V[x]] == 0, ip := Advance(s.ip, -2))
  }

  function ApplyRegisters(s: State, inst: Inst, rnd: nat): (r: State)
    requires WellFormed(s) && Check(s, inst).None? && !IsControl(inst.op) && !IsMemory(inst.op)
    ensures WellFormed(r) && r.keyboard == s.keyboard && r.halted == s.halted
    ensures r.ip == s.ip && r.sp == s.sp && r.memory == s.memory
    ensures r.blocked == s.blocked && r.displayChanged == s.displayChanged
  {
    var x, y, nn, nnn := RegX(inst), RegY(inst), Imm8(inst), inst.operand;
    match inst.op
    case MOV => s.(V := s.V[x := nn])
    case ADD => s.(V := s.V[x := (s.V[x] + nn) % 0x100])
    case ASS => s.(V := s.V[x := s.V[y]])
    case OR => s.(V := s.V[x := OrByte(s.V[x], s.V[y])])
    case AND => s.(V := s.V[x := AndByte(s.V[x], s.V[y])])
    case XOR => s.(V := s.V[x := XorByte(s.V[x], s.V[y])])
    case ADDC =>
      var (v, f) := AddWithCarry(s.V[x], s.V[y]);
      s.(V := s.V[x := v][0xF := f])
    case SUBC =>
      var (v, f) := SubWithBorrow(s.V[x], s.V[y]);
      s.(V := s.V[x := v][0xF := f])
    case SUBR =>
      var (v, f) := SubWithBorrow(s.V[y], s.V[x]);
      s.(V := s.V[x := v][0xF := f])
    case SHR => s.(V := s.V[x := Shr(s.V[x], 1)][0xF := s.V[x] % 2])
    case SHL => s.(V := s.V[x := Low(Shl(s.V[x], 1), 8)][0xF := if s.V[x] >= 0x80 then 1 else 0])
    case SETI => s.(I := nnn)
    case RND => s.(V := s.V[x := rnd % nn])
    case GETDT => s.(V := s.V[x := s.delayTimer % 0x100])
    case SETDT => s.(delayTimer := s.V[x])
    case SETST => s.(soundTimer := s.V[x])
    case ADDI => s.(I := Advance(s.I, s.V[x]))
  }

  function ApplyMemory(s: State, inst: Inst): (r: State)
    requires WellFormed(s) && Check(s, inst).None? && IsMemory(inst.op)
    ensures WellFormed(r) && r.keyboard == s.keyboard && r.halted == s.halted
    ensures r.ip == s.ip && r.sp == s.sp && r.blocked == s.blocked
    ensures r.delayTimer == s.delayTimer && r.soundTimer == s.soundTimer
  {
    var x, y, n := RegX(inst), RegY(inst), Imm4(inst);
    match inst.op
    case BCD => s.(memory := BcdStored(s.memory, s.I, s.V[x]))
    case DUMP => s.(memory := Dumped(s.memory, s.V, s.I, x))
    case LOAD => s.(V := LoadedRegisters(s.memory, s.V, s.I, x))
    case DRW =>
      var b := DrawRows(Blit(s.memory, s.V[0xF]), s.I, s.V[x], s.V[y], n);
      s.(memory := b.memory, V := s.V[0xF := b.vf], displayChanged := true)
    case SETISPR => s.(memory := GlyphUnpacked(s.memory, s.V[x]), I := GlyphAddr)
  }

  /** `cip8_execute`: the new state, or the fault the source would crash on. */
  function Execute(s: State, inst: Inst, rnd: nat): (r: Result<State, Fault>)
    requires WellFormed(s)
    ensures r.Err? <==> Check(s, inst).Some?
    ensures r.Ok? ==> WellFormed(r.value) && r.value.keyboard == s.keyboard && r.value.halted == s.halted
  {
    match Check(s, inst)
    case Some(f) => Err(f)
    case None => Ok(Apply(s, inst, rnd))
  }

  /** The opcode at `ip`: `memory[ip]` is its high byte. */
  function Fetch(s: State): (code: word)
    requires WellFormed(s) && s.ip + 1 < MemorySize
    ensures code == (s.memory[s.ip] as int) * 0x100 + s.memory[s.ip + 1]
  {
    OrDisjoint(s.memory[s.ip], s.memory[s.ip + 1], 8);
    Or(Shl(s.memory[s.ip], 8), s.memory[s.ip + 1])
  }

  /** `cip8_step`: fetch, decode, advance `ip` by 2, execute. */
  function Step(s: State, rnd: nat): (r: Result<State, Fault>)
    requires WellFormed(s)
    ensures r.Ok? ==> WellFormed(r.value) && r.value.keyboard == s.keyboard && r.value.halted == s.halted
  {
    if s.ip + 1 >= MemorySize then Err(FetchOutOfRange)
    else
      var code := Fetch(s);
      match Decode(code)
      case None => Err(UnknownOpcode(code))
      case Some(inst) => Execute(s.(ip := Advance(s.ip, 2)), inst, rnd)
  }

  /** Steps with successive random values `rnds`, stopping at the first fault. */
  function Run(s: State, rnds: seq<nat>): (r: Result<State, Fault>)
    requires WellFormed(s)
    ensures r.Ok? ==> WellFormed(r.value)
    decreases |rnds|
  {
    if rnds == [] then Ok(s)
    else
      match Step(s, rnds[0])
      case Err(f) => Err(f)
      case Ok(t) => Run(t, rnds[1..])
  }

  /** Memory holding the packed font and nothing else. */
  function FontMemory(): (r: seq<byte>)
    ensures |r| == MemorySize
  {
    seq(MemorySize, a requires 0 <= a < MemorySize => if a < 3 * |Glyphs| then FontByte(a) else 0)
  }

  /** The state `cip8_init` leaves; the timers, which it does not set, are parameters. */
  function Initial(delayTimer: nat, soundTimer: nat): (r: State)
    ensures WellFormed(r)
  {
    State(GlyphUnpacked(FontMemory(), 0), EntryPoint, StackTop, seq(16, _ => 0), GlyphAddr,
          delayTimer, soundTimer, seq(16, _ => 0), false, false, false)
  }
}
