# CHIP-8 interpreter core (`cip8.h`) in Dafny

This project models the interpreter core of a small CHIP-8 emulator written in C
(`cip8.h`) and proves properties of it. The machine has 4096 bytes of memory. The
font sits at `3 * d` for each hexadecimal digit `d`, programs load at `0x200`,
the call stack lives in `0xEA0..0xEFF` and the 64x32 one-bit framebuffer starts at
`0xF00`. The registers are `V0..VF`, the index register `I`, `ip` and `sp`, two
timers, a 16-entry keyboard and the flags `blocked`, `halted` and
`display_changed`.

The model has two layers.

- `Semantics` is a pure description of the machine. `State` is a value;
  `Check` names the fault an instruction runs into; `Apply`/`Execute` give the
  new state; `Fetch`, `Step` and `Run` describe `cip8_step` and `cip8_run`;
  `Initial` is the state `cip8_init` leaves. It builds on `Decoder` (the
  `cip8_get_inst` opcode decoder), `Display` (the XOR sprite blit of DRW,
  specified pixel by pixel) and `Bits` (bitwise operators on naturals).
- `Interpreter.Cip8` is the `Cip8` struct as a class over a memory array and a
  register array. Each method updates them in place, as the C functions do, and
  is proved to leave exactly the state the `Semantics` function prescribes
  (`Abs() == Semantics.Step(old(Abs()), rnd)` and the like).

`Properties` and `Scenarios` state what the semantics promises: arithmetic
flags, stack discipline, skip and jump behaviour, DUMP/LOAD round trips,
drawing twice restores the screen, the initial state, and small programs run
step by step.

Where an instruction would make the C code fail an `assert` or index past an
array, the model returns a `Fault` and leaves the machine as it was. The loader
and `cip8_clear_program` are the exception: a program too large for memory is
excluded by a precondition (see "Left out").

## Model

| member | source | states |
|---|---|---|
| Decoder.Decode | cip8.h:195-274 | an opcode decodes exactly when its family nibble and selector name an operation (`Known`); the operand is always the low 12 bits |
| Decoder.DecodeFamily | cip8.h:195-274 | a decoded operation belongs to the opcode's top nibble and its selector bits match |
| Decoder.EncodeDecoded | cip8.h:195-274 | re-encoding a decoded opcode gives back the opcode: decoding loses nothing |
| Decoder.DecodeEncoded | cip8.h:195-274 | every instruction whose operand carries its selector decodes back to itself |
| Decoder.CompareSkipsIgnoreLowNibble | cip8.h:211-239 | `5XYn` and `9XYn` decode to the same operation whatever their low nibble |
| Semantics.Fetch | cip8.h:10 | the opcode at `ip` is `memory[ip] * 256 + memory[ip+1]` (big-endian) |
| Semantics.Execute | cip8.h:323-542 | execution fails exactly when `Check` names a fault; otherwise the result is well formed and keeps keyboard and `halted` |
| Semantics.ApplyControl | cip8.h:326-451 | control instructions keep `V`, `I`, the timers and `display_changed`; only CALLS and RET move `sp`; only CALLS and CLD write memory |
| Semantics.ApplyRegisters | cip8.h:370-461 | register and timer instructions keep `ip`, `sp`, memory, `blocked` and `display_changed` |
| Semantics.ApplyMemory | cip8.h:462-538 | memory instructions keep `ip`, `sp`, `blocked` and the timers |
| Semantics.GlyphUnpacked | cip8.h:149-155 | the three bytes of glyph `d` become six nibbles at 51, high nibble first; every other byte is kept |
| Semantics.Step | cip8.h:545-554 | a step that succeeds yields a well-formed state with keyboard and `halted` unchanged |
| Semantics.Run | cip8.h:555-559 | a run that succeeds yields a well-formed state |
| Semantics.Initial | cip8.h:107-161 | the state after init is well formed |
| Display.DrawRowPixels | cip8.h:492-521 | one sprite row flips exactly the pixels the row's bits select, at `(x + col, (y + hi) % 32)` |
| Display.DrawRowsPixels | cip8.h:485-522 | for a sprite stored below the framebuffer (`I + n <= 0xF00`), after `n` rows a pixel is lit exactly when it was lit XOR an odd number of sprite rows cover it with a set bit |
| Display.DrawTwiceRestores | cip8.h:485-522 | for a sprite stored below the framebuffer (`I + n <= 0xF00`), drawing it twice restores the framebuffer byte for byte |
| Display.AlignedCollision | cip8.h:505-509 | on an aligned row, VF becomes 1 exactly when the target byte was not blank |
| Display.BlankSplitRow | cip8.h:510-519 | for sprite byte `0x80` at `x % 8 == 1` over two blank bytes, the as-written re-shifted comparison differs from the sprite |
| Display.UnalignedBlankCollision | cip8.h:510-519 | the unaligned collision test sets VF when drawing `0x80` at x=1 on a blank screen |
| Display.ClearedFrame | cip8.h:563-569 | clearing zeroes every framebuffer byte (every pixel off) and keeps memory below `0xF00` |
| Bits.ReverseBit | cip8.h:494-503 | bit `j` of the reversed byte is bit `7 - j` of the sprite byte |
| Bits.ReverseInvolutive | cip8.h:494-503 | reversing a byte twice gives it back |
| Bits.OrBit | cip8.h:381-383 | a bit of `a | b` is set exactly where a bit of `a` or `b` is |
| Bits.AndBit | cip8.h:384-386 | a bit of `a & b` is set exactly where both bits are |
| Bits.XorBit | cip8.h:387-389 | a bit of `a ^ b` is set exactly where the bits differ |
| Bits.XorInvolutive | cip8.h:505-519 | XOR with the same value twice is the identity, the basis of XOR drawing |
| Interpreter.Cip8.constructor | cip8.h:107-161 | a fresh machine is in the state `Semantics.Initial` |
| Interpreter.Cip8.ZeroKeysAndMemory | cip8.h:112-117 | every key is released and every memory byte is zero |
| Interpreter.Cip8.WriteFont | cip8.h:122-147 | the font table lands at `3 * d` and `V0..VF` are zeroed |
| Interpreter.Cip8.UnpackGlyph | cip8.h:149-155 | memory becomes `GlyphUnpacked(old memory, d)` |
| Interpreter.Cip8.LoadProgram | cip8.h:162-180 | memory becomes `Loaded(old memory, program, host order)` |
| Interpreter.Cip8.LoadLowByteFirst | cip8.h:169-173 | the little-endian loop stores each word low byte first |
| Interpreter.Cip8.LoadHighByteFirst | cip8.h:174-178 | the big-endian loop stores each word high byte first |
| Interpreter.Cip8.ClearProgram | cip8.h:181-187 | memory becomes `ClearedProgram(old memory, size)` |
| Interpreter.Cip8.ClearDisplay | cip8.h:563-569 | memory becomes `ClearedFrame(old memory)` |
| Interpreter.Cip8.ExecuteControl | cip8.h:326-451 | returns `Check`'s fault and changes nothing, or leaves exactly `ApplyControl`'s state |
| Interpreter.Cip8.ExecuteRegisters | cip8.h:370-461 | returns `Check`'s fault and changes nothing, or leaves exactly `ApplyRegisters`'s state |
| Interpreter.Cip8.ExecuteArithmetic | cip8.h:370-419 | never faults and leaves exactly `ApplyRegisters`'s state |
| Interpreter.Cip8.ExecuteOthers | cip8.h:429-461 | returns `Check`'s fault and changes nothing, or leaves exactly `ApplyRegisters`'s state |
| Interpreter.Cip8.ExecuteMemory | cip8.h:462-538 | returns `Check`'s fault and changes nothing, or leaves exactly `ApplyMemory`'s state |
| Interpreter.Cip8.Dump | cip8.h:469-476 | memory becomes `Dumped(old memory, V, I, x)` |
| Interpreter.Cip8.Load | cip8.h:477-484 | `V` becomes `LoadedRegisters(memory, old V, I, x)` |
| Interpreter.Cip8.Draw | cip8.h:485-522 | framebuffer and VF become `DrawRows` of the old ones; no other register changes |
| Interpreter.Cip8.DrawSpriteRow | cip8.h:492-521 | one loop iteration leaves `DrawRow` of the old framebuffer and VF |
| Interpreter.Cip8.XorAligned | cip8.h:505-509 | the aligned branch leaves `DrawRow` of the old framebuffer and VF |
| Interpreter.Cip8.XorSplit | cip8.h:510-519 | the two-byte branch leaves `DrawRow` of the old framebuffer and VF |
| Interpreter.Cip8.Execute | cip8.h:323-542 | returns the fault of `Semantics.Execute` with the machine unchanged, or leaves its new state |
| Interpreter.Cip8.Step | cip8.h:545-554 | returns the fault of `Semantics.Step` with the machine unchanged, or leaves its new state |
| Interpreter.Cip8.Run | cip8.h:555-559 | after `MaxSteps` steps the machine is in the state of `Semantics.Run`, or the first fault is returned |
| Properties.StepAdvances | cip8.h:545-554 | a successful step of an instruction that neither jumps nor skips leaves `ip` on the next instruction |
| Properties.StepSkips | cip8.h:346-441 | a successful step of a skip moves `ip` by 4 when its condition holds and by 2 otherwise |
| Properties.Jumps | cip8.h:334-336 | GOTO sets `ip` to its operand and JMV0 (`cip8.h:430`) to `V0` plus its operand; nothing else changes |
| Properties.ExecuteSkips | cip8.h:346-441 | a skip that executes without a fault adds 2 to `ip` exactly when its condition holds |
| Properties.StepExecutes | cip8.h:545-554 | a step executes the decoded opcode with `ip` already moved past it |
| Properties.AdvanceTwice | cip8.h:552 | two moves of the 16-bit `ip` add up modulo 2^16 |
| Properties.GetKeyWaits | cip8.h:445-451 | for a key number `Vx < 16`, a step of GETK leaves `ip` on itself and sets `blocked` exactly while that key is up; nothing else changes |
| Properties.GetKeyBlocks | cip8.h:445-451 | for a key number `Vx < 16`, GETK executed alone moves `ip` back by 2 and sets `blocked` exactly while the key is up |
| Properties.GetKeyStalls | cip8.h:445-451 | for a key number `Vx < 16`, any run from a GETK succeeds, stays on it and writes no register |
| Properties.RunKeepsInputs | cip8.h:555-559 | no run changes the keyboard or `halted` |
| Properties.OnlyDrawMarksDisplay | cip8.h:485-486 | only DRW sets `display_changed`; CLD leaves it alone |
| Properties.DelayTimerRoundTrip | cip8.h:442-455 | SETDT then GETDT copies `Vx` into `Vy` through the delay timer; no other register changes |
| Properties.AddCarry | cip8.h:390-395 | for `x != F`, ADDC: `Vx` is the byte sum and VF is 1 exactly on overflow; other registers kept (for `x = F` the flag write wins) |
| Properties.SubBorrow | cip8.h:396-401 | for `x != F`, SUBC: `Vx` is `Vx - Vy` mod 256 and VF is 1 exactly when `Vx >= Vy` |
| Properties.ReverseSubBorrow | cip8.h:402-407 | for `x != F`, SUBR: `Vx` is `Vy - Vx` mod 256 and VF is 1 exactly when `Vy >= Vx` |
| Properties.NoBorrow | cip8.h:396-407 | the borrow flag is 1 exactly when the 8-bit difference is not negative |
| Properties.LogicalBits | cip8.h:381-389 | OR, AND and XOR set each bit of `Vx` to the operator on the bits of `Vx` and `Vy`; VF and everything else stay |
| Properties.ShiftRight | cip8.h:408-413 | for `x != F`, SHR: VF gets bit 0 and every other bit moves down one place |
| Properties.ShiftLeft | cip8.h:414-419 | for `x != F`, SHL: VF gets bit 7, bits 0..6 move up and bit 7 falls off |
| Properties.CallOverflow | cip8.h:337-338 | from a valid stack pointer (odd, within `0xE9F..0xEFF`), CALLS faults exactly when `sp <= 0xEA0` |
| Properties.ReturnUnderflow | cip8.h:329-333 | from a valid stack pointer (odd, within `0xE9F..0xEFF`), RET is allowed exactly when something is on the stack |
| Properties.CallThenReturn | cip8.h:329-345 | from a valid stack pointer (odd, within `0xE9F..0xEFF`), given room on the stack (`sp > 0xEA0`) and `ip <= 0xFFF`, RET after CALLS returns to the caller's `ip` with `sp` restored |
| Properties.PushedAddress | cip8.h:337-345 | the two bytes CALLS pushes read back as the 12-bit address |
| Properties.PushedBytes | cip8.h:329-333 | with `2 <= sp < 4096` and `lo < 16`, RET reads back `hi * 16 + lo` from the two stack bytes |
| Properties.CallPushes | cip8.h:337-345 | with `0xEA0 < sp < 4096`, CALLS pushes two bytes of `ip`, jumps and lowers `sp` by 2 |
| Properties.ReturnPops | cip8.h:329-333 | with `sp + 2 <= 0xEFF`, RET reads `ip` from the two bytes above `sp` and raises `sp` by 2 |
| Properties.StepKeepsStack | cip8.h:545-554 | a successful step from an odd `sp` within `0xE9F..0xEFF` keeps `sp` odd and within that range |
| Properties.ExecuteKeepsStack | cip8.h:323-542 | an instruction executed without a fault from an odd `sp` within `0xE9F..0xEFF` keeps `sp` odd and within that range |
| Properties.CallWritesStackOnly | cip8.h:337-345 | from a valid stack pointer (odd, within `0xE9F..0xEFF`), CALLS writes no byte outside `0xEA0..0xEFF` |
| Properties.BcdDigits | cip8.h:462-468 | when `I + 2` is inside memory, BCD stores the hundreds, tens and units of `Vx` at `I..I+2`, nothing else |
| Properties.DumpFrame | cip8.h:469-476 | when `I + x` is inside memory, DUMP copies `V0..Vx` to `memory[I..I+x]`; registers, `I` and other bytes kept |
| Properties.LoadFrame | cip8.h:477-484 | when `I + x` is inside memory, LOAD reads `V0..Vx` from `memory[I..I+x]`; other registers, `I` and memory kept |
| Properties.DumpThenLoad | cip8.h:469-484 | when `I + x` is inside memory, LOAD after DUMP with the same `I` and `x` restores every register |
| Properties.FontPointer | cip8.h:523-538 | SETISPR succeeds exactly when `Vx <= 15`, unpacks that glyph at 51 and points `I` there; nothing else changes |
| Properties.ClearDisplay | cip8.h:326-328 | CLD zeroes the framebuffer and changes nothing else |
| Properties.DrawEffect | cip8.h:485-522 | for a sprite stored below the framebuffer (`I + n <= 0xF00`), DRW flips exactly the sprite's pixels, sets `display_changed`, may only set VF to 1, and changes nothing else |
| Properties.DrawFrame | cip8.h:485-522 | wherever the sprite is read from, DRW sets `display_changed`, may only set VF to 1, keeps memory below `0xF00`, and changes nothing else (`I`, `ip`, `sp`, timers, `V0..VE`) |
| Properties.DrawTwice | cip8.h:485-522 | for `x, y != F` and a sprite stored below the framebuffer (`I + n <= 0xF00`), executing the same DRW twice restores the framebuffer |
| Properties.DrawAlignedCollision | cip8.h:505-509 | starting from VF = 0, a one-row draw at a multiple of 8 sets VF exactly when the target byte had a lit pixel |
| Properties.InitialRegisters | cip8.h:107-161 | after init `ip` is `0x200`, `sp` is `0xEFF`, `I` is 51, registers and keys are zero, flags are clear |
| Properties.InitialFont | cip8.h:122-147 | after init the font sits at `3 * d` and memory is zero from the font's end on, except the glyph at 51 |
| Properties.GlyphZeroUnpacked | cip8.h:149-155 | glyph 0 (`F9 99 F0`) unpacks into `F 9 9 9 F 0` |
| Properties.InitialGlyph | cip8.h:149-155 | after init `memory[51..57]` is `F 9 9 9 F 0` |
| Properties.FontLayout | cip8.h:122-147 | the font table has three bytes per digit at `3 * d` and zeros after it |
| Properties.LoadImageFetches | cip8.h:162-180 | with the intended loader, fetching at `0x200 + 2i` gives program word `i` |
| Properties.LittleEndianLoadSwaps | cip8.h:169-173 | the little-endian loop as written makes `0x6005` fetch as `0x0560` |
| Properties.ClearUndoesLoad | cip8.h:162-187 | clearing a program of the same size zeroes everything the loader wrote |
| Properties.CallStackAsWrittenOutOfRange | cip8.h:109-111 | for every `sp > 0xEA0`, the source's index `0xEA0 + sp - 1` into `call_stack` is beyond the 4096-byte memory |
| Properties.CallsAsWrittenOverrun | cip8.h:337-340 | from a valid stack pointer (odd, within `0xE9F..0xEFF`), every CALLS that passes the stack check writes both stack bytes the source addresses (`0xEA0 + sp - 1` and `0xEA0 + sp`) beyond the 4096-byte memory |
| Scenarios.LoadThenAdd | cip8.h:370-375 | `6005 7003` run for two steps leaves 8 in V0 and `ip` past both |
| Scenarios.SetIndexThenDump | cip8.h:429 | `A2F0 F355` points `I` at `0x2F0` and dumps `V0..V3` there |
| Scenarios.LoadedTwo | cip8.h:162-180 | a two-word program is fetched word by word |
| Scenarios.MovFive | cip8.h:370-372 | `6005` sets V0 to 5 |
| Scenarios.AddThree | cip8.h:373-375 | `7003` adds 3 to V0 |
| Scenarios.SetIndex | cip8.h:429 | `A2F0` sets `I` to `0x2F0` |
| Scenarios.DumpFour | cip8.h:469-476 | `F355` stores `V0..V3` at `I` |
| Scenarios.DecodesDump | cip8.h:250-265 | `F355` decodes to DUMP with operand `0x355` |
| Scenarios.StepDump | cip8.h:469-476 | a step onto DUMP stores `V0..Vx` at `I` and changes nothing else |
| Scenarios.DumpedRange | cip8.h:469-476 | the bytes DUMP writes are `V0..Vx` in order |
| Scenarios.StepOf | cip8.h:545-554 | a step executes the decoding of the fetched opcode |
| Scenarios.RunTwo | cip8.h:555-559 | two successful steps make a run of two |
| Scenarios.BcdOf157 | cip8.h:462-468 | BCD of 157 writes the digits 1, 5, 7 |

## Left out

- `main.c`, the SDL window and the terminal output (`cip8.h:570-603`) are not part of this model: they only display the framebuffer.
- `cip8_print_code` and `cip8_print_inst` (`cip8.h:188-192`, `cip8.h:275-322`) and the `printf` calls inside `cip8_execute` and `cip8_step` only print; they are left out.
- `rand()` in RND is the parameter `rnd` of `Execute`, `Step` and the values `rnds` of `Run`.
- The endianness probe of `cip8_load_program` (`cip8.h:167-168`) is the parameter `littleEndianHost`.
- The timers are `double` in the source; they are modelled as naturals, which is exact for the byte values the instructions store. Init does not set them, so they are constructor parameters.
- The `CALL` (`0NNN`) member of the operation enum is never produced by the decoder, so it is not in the model.
- `halted` is never set by the core and the keyboard is written only by the host; both are fields that no operation changes.
- Interpreter.Cip8.LoadProgram and Interpreter.Cip8.ClearProgram (with `Semantics.Loaded` and `Semantics.ClearedProgram`) require the program to fit below the end of memory (`0x200 + 2 * size <= 4096`). `cip8.h:162-187` has no such check and writes past `memory` for a larger program; the model leaves that case out rather than reporting it as a fault.
- Interpreter.Cip8.Execute: where the source fails an `assert`, indexes outside an array or divides by zero (RND with `nn == 0`), the model returns a `Fault` and leaves the state unchanged. It does not model what the C program does after such undefined behaviour.
- Interpreter.Cip8.Run: on a fault it states only which fault stopped the run, not the state left by the steps before it.
- Semantics.Check: RET with an empty stack and a read or write through `I` past the memory are reported as faults; the C code has no check there and reads or writes out of bounds.
- GETK follows the code: it sets `blocked` while the key is up and always moves `ip` back onto itself, so it never completes. This differs from the usual CHIP-8 behaviour of waiting for a key and storing it.
- A fetch at `ip >= 4095` would read `memory[ip + 1]` past the memory; `Semantics.Step` reports it as the fault `FetchOutOfRange`.

## Findings

| source | as written | input that shows it | evidently intended | confidence | as-written member | corrected member |
|---|---|---|---|---|---|---|
| cip8.h:111 | `call_stack` is `memory + 0xEA0` but `sp` starts at the absolute address `0xEFF`, so CALLS writes `call_stack[sp - 1]` and `call_stack[sp]` (`cip8.h:339-340`) near `0xEA0 + 0xEFF`, past the 4096-byte memory | any CALLS after init (`sp = 0xEFF`) | the stack bytes at the absolute addresses `sp - 1` and `sp` inside `0xEA0..0xEFF` | not executed | Properties.CallsAsWrittenOverrun | Properties.CallThenReturn |
| cip8.h:169-173 | on a little-endian host each word is stored low byte first, while the fetch reads `memory[ip]` as the high byte | program `[0x6005]` fetches as `0x0560` | every word stored high byte first, whatever the host | not executed | Properties.LittleEndianLoadSwaps | Properties.LoadImageFetches |
