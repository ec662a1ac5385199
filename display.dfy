/**
 * The framebuffer of cip8.h and its sprite blit.
 *
 * The display is the 256 bytes at `memory[0xF00..0x1000)`: 32 rows of 8
 * bytes, one bit per pixel, and pixel column `c` of a row is bit `c % 8` of
 * byte `c / 8` of that row (the least significant bit is the leftmost pixel).
 * Pixels are numbered linearly, `p = row * 64 + column`, so pixel `p` is bit
 * `p % 8` of framebuffer byte `p / 8`.
 */
module Display {
  import opened Bits

  const MemorySize := 0x1000
  const FrameBase := 0xF00
  const FrameBytes := 0x100
  const Pixels := 0x800

  /** Whether pixel `p` is lit. */
  predicate Pixel(memory: seq<byte>, p: nat)
    requires |memory| == MemorySize && p < Pixels
  {
    Bit(memory[FrameBase + p / 8], p % 8)
  }

  /** Offset, inside the framebuffer, of the first byte that sprite row `hi` touches. */
  function RowOffset(x: byte, y: byte, hi: nat): (r: nat) {
    ((y + hi) % 32) * 8 + x / 8
  }

  /** Sprite row `hi` touches only framebuffer bytes (one byte when `x` is a multiple of 8, two otherwise). */
  predicate RowFits(x: byte, y: byte, hi: nat) {
    RowOffset(x, y, hi) + (if x % 8 == 0 then 0 else 1) < FrameBytes
  }

  predicate DrawFits(x: byte, y: byte, h: nat) {
    h == 0 || (DrawFits(x, y, h - 1) && RowFits(x, y, h - 1))
  }

  /** A sprite that fits fits row by row. */
  lemma {:induction false} DrawFitsPrefix(x: byte, y: byte, n: nat, k: nat)
    requires DrawFits(x, y, n) && k < n
    ensures DrawFits(x, y, k + 1) && RowFits(x, y, k)
    decreases n
  {
    if k + 1 < n {
      DrawFitsPrefix(x, y, n - 1, k);
    }
  }

  /** Linear index of the pixel where sprite row `hi` starts. */
  function RowStart(x: byte, y: byte, hi: nat): (r: nat) {
    ((y + hi) % 32) * 64 + x
  }

  /**
   * Whether drawing sprite byte `a` as row `hi` flips pixel `p`: the byte
   * covers the eight pixels from the row's start, most significant bit first.
   */
  predicate RowFlips(a: byte, x: byte, y: byte, hi: nat, p: nat) {
    var start := RowStart(x, y, hi);
    start <= p < start + 8 && Bit(a, 7 - (p - start))
  }

  /** The part of the machine state a blit changes: memory and the flag register VF. */
  datatype Blit = Blit(memory: seq<byte>, vf: byte)

  /**
   * One iteration of the DRW loop: the bit-reversed byte `memory[I + hi]`
   * is XORed into the row, split over two bytes when `x` is not a multiple
   * of 8, and the source's collision test may set VF.
   */
  function DrawRow(b: Blit, I: word, x: byte, y: byte, hi: nat): (r: Blit)
    requires |b.memory| == MemorySize && I + hi < MemorySize && RowFits(x, y, hi)
    ensures |r.memory| == MemorySize
    ensures r.vf == b.vf || r.vf == 1
  {
    var sprite := Reverse8(b.memory[I + hi]);
    var at := FrameBase + RowOffset(x, y, hi);
    if x % 8 == 0 then
      var now := XorByte(b.memory[at], sprite);
      Blit(b.memory[at := now], if now != sprite then 1 else b.vf)
    else
      var s := x % 8;
      var left: byte := Low(Xor(b.memory[at], Shl(sprite, s)), 8);
      var right := XorByte(b.memory[at + 1], Shr(sprite, 8 - s));
      var memory := b.memory[at := left][at + 1 := right];
      Blit(memory, if Or(Shl(left, s), Shr(right, 8 - s)) != sprite then 1 else b.vf)
  }

  /** The first `k` iterations of the DRW loop. */
  function DrawRows(b: Blit, I: word, x: byte, y: byte, k: nat): (r: Blit)
    requires |b.memory| == MemorySize && (k == 0 || I + k <= MemorySize) && DrawFits(x, y, k)
    ensures |r.memory| == MemorySize
    ensures b.vf == 1 ==> r.vf == 1
    ensures r.vf == b.vf || r.vf == 1
  {
    if k == 0 then b else DrawRow(DrawRows(b, I, x, y, k - 1), I, x, y, k - 1)
  }

  /** The rows of a sprite are drawn into the framebuffer alone: memory below it is unchanged. */
  lemma {:induction false} DrawRowsKeepsBelowFrame(b: Blit, I: word, x: byte, y: byte, k: nat)
    requires |b.memory| == MemorySize && (k == 0 || I + k <= MemorySize) && DrawFits(x, y, k)
    ensures DrawRows(b, I, x, y, k).memory[..FrameBase] == b.memory[..FrameBase]
  {
    if k > 0 {
      DrawRowsKeepsBelowFrame(b, I, x, y, k - 1);
      DrawRowKeepsBelowFrame(DrawRows(b, I, x, y, k - 1), I, x, y, k - 1);
    }
  }

  /** One row of a sprite is drawn into the framebuffer alone. */
  lemma DrawRowKeepsBelowFrame(b: Blit, I: word, x: byte, y: byte, hi: nat)
    requires |b.memory| == MemorySize && I + hi < MemorySize && RowFits(x, y, hi)
    ensures DrawRow(b, I, x, y, hi).memory[..FrameBase] == b.memory[..FrameBase]
  {
  }

  /** The first `k + 1` rows are the first `k` rows followed by row `k`. */
  lemma DrawRowsUnfold(b: Blit, I: word, x: byte, y: byte, k: nat)
    requires |b.memory| == MemorySize && I + k < MemorySize && DrawFits(x, y, k + 1)
    ensures DrawFits(x, y, k) && RowFits(x, y, k)
    ensures DrawRows(b, I, x, y, k + 1) == DrawRow(DrawRows(b, I, x, y, k), I, x, y, k)
  {
  }

  /** Whether the first `k` rows of the sprite at `I` flip pixel `p` (an odd number of times). */
  predicate Flipped(memory: seq<byte>, I: word, x: byte, y: byte, k: nat, p: nat)
    requires I + k <= |memory|
  {
    if k == 0 then false
    else Flipped(memory, I, x, y, k - 1, p) != RowFlips(memory[I + k - 1], x, y, k - 1, p)
  }

  /** One row flips exactly the pixels its sprite byte covers with a set bit; every other pixel keeps its value. */
  lemma DrawRowPixels(b: Blit, I: word, x: byte, y: byte, hi: nat, p: nat, a: byte)
    requires |b.memory| == MemorySize && I + hi < MemorySize && RowFits(x, y, hi) && p < Pixels
    requires a == b.memory[I + hi]
    ensures Pixel(DrawRow(b, I, x, y, hi).memory, p) == (Pixel(b.memory, p) != RowFlips(a, x, y, hi, p))
  {
    var off := RowOffset(x, y, hi);
    if p / 8 != off && (p / 8 != off + 1 || x % 8 == 0) {
      UntouchedPixel(b, I, x, y, hi, p);
    } else if x % 8 == 0 {
      AlignedPixel(b, I, x, y, hi, p);
    } else if p / 8 == off {
      LeftPixel(b, I, x, y, hi, p);
    } else {
      RightPixel(b, I, x, y, hi, p);
    }
  }

  lemma UntouchedPixel(b: Blit, I: word, x: byte, y: byte, hi: nat, p: nat)
    requires |b.memory| == MemorySize && I + hi < MemorySize && RowFits(x, y, hi) && p < Pixels
    requires p / 8 != RowOffset(x, y, hi) && (p / 8 != RowOffset(x, y, hi) + 1 || x % 8 == 0)
    ensures Pixel(DrawRow(b, I, x, y, hi).memory, p)
         == (Pixel(b.memory, p) != RowFlips(b.memory[I + hi], x, y, hi, p))
  {
    var m' := DrawRow(b, I, x, y, hi).memory;
    assert RowStart(x, y, hi) == 8 * RowOffset(x, y, hi) + x % 8;
    assert m'[FrameBase + p / 8] == b.memory[FrameBase + p / 8];
  }

  lemma AlignedPixel(b: Blit, I: word, x: byte, y: byte, hi: nat, p: nat)
    requires |b.memory| == MemorySize && I + hi < MemorySize && RowFits(x, y, hi) && p < Pixels
    requires p / 8 == RowOffset(x, y, hi) && x % 8 == 0
    ensures Pixel(DrawRow(b, I, x, y, hi).memory, p)
         == (Pixel(b.memory, p) != RowFlips(b.memory[I + hi], x, y, hi, p))
  {
    var a := b.memory[I + hi];
    var at := FrameBase + p / 8;
    assert RowStart(x, y, hi) == 8 * RowOffset(x, y, hi);
    assert DrawRow(b, I, x, y, hi).memory[at] == XorByte(b.memory[at], Reverse8(a));
    AlignedRowBit(b.memory[at], a, p % 8);
  }

  lemma LeftPixel(b: Blit, I: word, x: byte, y: byte, hi: nat, p: nat)
    requires |b.memory| == MemorySize && I + hi < MemorySize && RowFits(x, y, hi) && p < Pixels
    requires p / 8 == RowOffset(x, y, hi) && x % 8 != 0
    ensures Pixel(DrawRow(b, I, x, y, hi).memory, p)
         == (Pixel(b.memory, p) != RowFlips(b.memory[I + hi], x, y, hi, p))
  {
    var a := b.memory[I + hi];
    var at := FrameBase + p / 8;
    var s := x % 8;
    assert RowStart(x, y, hi) == 8 * RowOffset(x, y, hi) + s;
    assert DrawRow(b, I, x, y, hi).memory[at] == Low(Xor(b.memory[at], Shl(Reverse8(a), s)), 8);
    LeftByteBit(b.memory[at], a, s, p % 8);
  }

  lemma RightPixel(b: Blit, I: word, x: byte, y: byte, hi: nat, p: nat)
    requires |b.memory| == MemorySize && I + hi < MemorySize && RowFits(x, y, hi) && p < Pixels
    requires p / 8 == RowOffset(x, y, hi) + 1 && x % 8 != 0
    ensures Pixel(DrawRow(b, I, x, y, hi).memory, p)
         == (Pixel(b.memory, p) != RowFlips(b.memory[I + hi], x, y, hi, p))
  {
    var a := b.memory[I + hi];
    var at := FrameBase + p / 8;
    var s := x % 8;
    assert RowStart(x, y, hi) == 8 * RowOffset(x, y, hi) + s;
    assert DrawRow(b, I, x, y, hi).memory[at] == XorByte(b.memory[at], Shr(Reverse8(a), 8 - s));
    RightByteBit(b.memory[at], a, s, p % 8);
  }

  lemma AlignedRowBit(was: byte, a: byte, j: nat)
    requires j < 8
    ensures Bit(XorByte(was, Reverse8(a)), j) == (Bit(was, j) != Bit(a, 7 - j))
  {
    XorBit(was, Reverse8(a), j);
    ReverseBit(a, j);
  }

  /** The byte that receives the sprite shifted left by `s`, truncated to 8 bits. */
  lemma LeftByteBit(was: byte, a: byte, s: nat, j: nat)
    requires 0 < s < 8 && j < 8
    ensures Bit(Low(Xor(was, Shl(Reverse8(a), s)), 8), j) == (Bit(was, j) != (j >= s && Bit(a, 7 - (j - s))))
  {
    var sprite := Reverse8(a);
    BitOfLow(Xor(was, Shl(sprite, s)), 8, j);
    XorBit(was, Shl(sprite, s), j);
    BitOfShl(sprite, s, j);
    if j >= s {
      ReverseBit(a, j - s);
    }
  }

  /** The next byte, which receives the sprite bits shifted out on the left. */
  lemma RightByteBit(was: byte, a: byte, s: nat, j: nat)
    requires 0 < s < 8 && j < 8
    ensures Bit(XorByte(was, Shr(Reverse8(a), 8 - s)), j) == (Bit(was, j) != (j < s && Bit(a, 7 - (j + 8 - s))))
  {
    var sprite := Reverse8(a);
    XorBit(was, Shr(sprite, 8 - s), j);
    BitOfShr(sprite, 8 - s, j);
    if j < s {
      ReverseBit(a, j + 8 - s);
    } else {
      BitAbove(sprite, 8, j + 8 - s);
    }
  }

  /** All rows together flip exactly the pixels `Flipped` names, when the sprite lies outside the framebuffer. */
  lemma {:induction false} DrawRowsPixels(b: Blit, I: word, x: byte, y: byte, k: nat, p: nat)
    requires |b.memory| == MemorySize && I + k <= FrameBase && DrawFits(x, y, k) && p < Pixels
    ensures Pixel(DrawRows(b, I, x, y, k).memory, p) == (Pixel(b.memory, p) != Flipped(b.memory, I, x, y, k, p))
  {
    if k > 0 {
      DrawRowsPixels(b, I, x, y, k - 1, p);
      DrawRowsStep(b, I, x, y, k, p);
    }
  }

  /** The last of `k` rows flips the pixels its own sprite byte covers. */
  lemma DrawRowsStep(b: Blit, I: word, x: byte, y: byte, k: nat, p: nat)
    requires |b.memory| == MemorySize && I + k <= FrameBase && DrawFits(x, y, k) && p < Pixels && k > 0
    ensures Pixel(DrawRows(b, I, x, y, k).memory, p)
         == (Pixel(DrawRows(b, I, x, y, k - 1).memory, p) != RowFlips(b.memory[I + k - 1], x, y, k - 1, p))
  {
    assert RowFits(x, y, k - 1);
    var before := DrawRows(b, I, x, y, k - 1);
    var after := DrawRow(before, I, x, y, k - 1);
    assert DrawRows(b, I, x, y, k) == after;
    DrawRowsKeepsBelowFrame(b, I, x, y, k - 1);
    SamePrefixAt(before.memory, b.memory, I + k - 1);
    DrawRowPixels(before, I, x, y, k - 1, p, b.memory[I + k - 1]);
  }

  /** Sequences that agree below the framebuffer agree at each address there. */
  lemma SamePrefixAt(m1: seq<byte>, m2: seq<byte>, i: nat)
    requires FrameBase <= |m1| && FrameBase <= |m2| && m1[..FrameBase] == m2[..FrameBase] && i < FrameBase
    ensures m1[i] == m2[i]
  {
    assert m1[..FrameBase][i] == m2[..FrameBase][i];
  }

  /** Drawing the same sprite twice at the same place leaves the memory as it was. */
  lemma DrawTwiceRestores(b: Blit, I: word, x: byte, y: byte, k: nat)
    requires |b.memory| == MemorySize && I + k <= FrameBase && DrawFits(x, y, k)
    ensures DrawRows(DrawRows(b, I, x, y, k), I, x, y, k).memory == b.memory
  {
    var once := DrawRows(b, I, x, y, k);
    var twice := DrawRows(once, I, x, y, k);
    DrawRowsKeepsBelowFrame(b, I, x, y, k);
    DrawRowsKeepsBelowFrame(once, I, x, y, k);
    forall i | 0 <= i < MemorySize
      ensures twice.memory[i] == b.memory[i]
    {
      if i < FrameBase {
        SamePrefixAt(twice.memory, b.memory, i);
      } else {
        forall j | 0 <= j < 8
          ensures Bit(twice.memory[i], j) == Bit(b.memory[i], j)
        {
          var p := 8 * (i - FrameBase) + j;
          assert FrameBase + p / 8 == i && p % 8 == j;
          DrawTwicePixel(b, I, x, y, k, p);
        }
        SameBits(twice.memory[i], b.memory[i], 8);
      }
    }
  }

  /** Each pixel is flipped by the first drawing and flipped back by the second. */
  lemma DrawTwicePixel(b: Blit, I: word, x: byte, y: byte, k: nat, p: nat)
    requires |b.memory| == MemorySize && I + k <= FrameBase && DrawFits(x, y, k) && p < Pixels
    ensures Pixel(DrawRows(DrawRows(b, I, x, y, k), I, x, y, k).memory, p) == Pixel(b.memory, p)
  {
    var once := DrawRows(b, I, x, y, k);
    DrawRowsKeepsBelowFrame(b, I, x, y, k);
    FlippedReadsSprite(once.memory, b.memory, I, x, y, k);
    DrawRowsPixels(b, I, x, y, k, p);
    DrawRowsPixels(once, I, x, y, k, p);
  }

  /** `Flipped` depends only on the sprite bytes. */
  lemma {:induction false} FlippedReadsSprite(m1: seq<byte>, m2: seq<byte>, I: word, x: byte, y: byte, k: nat)
    requires I + k <= FrameBase <= |m1| && FrameBase <= |m2| && m1[..FrameBase] == m2[..FrameBase]
    ensures forall p :: Flipped(m1, I, x, y, k, p) == Flipped(m2, I, x, y, k, p)
  {
    if k > 0 {
      FlippedReadsSprite(m1, m2, I, x, y, k - 1);
      assert m1[I + k - 1] == m1[..FrameBase][I + k - 1];
    }
  }

  /** With `x` a multiple of 8, a row sets VF exactly when the byte it lands on had a lit pixel. */
  lemma AlignedCollision(b: Blit, I: word, x: byte, y: byte, hi: nat)
    requires |b.memory| == MemorySize && I + hi < MemorySize && RowFits(x, y, hi) && x % 8 == 0
    ensures DrawRow(b, I, x, y, hi).vf == if b.memory[FrameBase + RowOffset(x, y, hi)] != 0 then 1 else b.vf
  {
    XorFixesOnlyZero(b.memory[FrameBase + RowOffset(x, y, hi)], Reverse8(b.memory[I + hi]));
  }

  /**
   * With `x` not a multiple of 8 the source's collision test compares a
   * re-shifted copy of the new bytes with the sprite; on a blank screen it
   * still reports a collision.
   */
  lemma UnalignedBlankCollision()
    ensures var memory := seq(MemorySize, i => if i == 0x300 then 0x80 else 0);
            && (forall p :: 0 <= p < Pixels ==> !Pixel(memory, p))
            && DrawRow(Blit(memory, 0), 0x300, 1, 0, 0).vf == 1
  {
    var memory := seq(MemorySize, i => if i == 0x300 then 0x80 else 0);
    forall p | 0 <= p < Pixels
      ensures !Pixel(memory, p)
    {
      ZeroBit(p % 8);
    }
    assert memory[0x300] == 0x80 && memory[FrameBase] == 0 && memory[FrameBase + 1] == 0;
    BlankSplitRow();
  }

  /** Sprite byte `0x80` drawn at `x % 8 == 1` over two blank bytes: the re-shifted new bytes differ from the sprite. */
  lemma BlankSplitRow()
    ensures var sprite := Reverse8(0x80);
            var left: byte := Low(Xor(0, Shl(sprite, 1)), 8);
            var right := XorByte(0, Shr(sprite, 7));
            Or(Shl(left, 1), Shr(right, 7)) != sprite
  {
    ReverseTopBit();
    assert Shl(1, 1) == 2 && Xor(0, 2) == 2;
    LowOfSmall(2, 8);
    assert Shr(1, 7) == 0 && Xor(0, 0) == 0;
    assert Or(Shl(2, 1), Shr(0, 7)) == 4;
  }

  /** Reversing the byte with only its top bit set leaves only the bottom bit set. */
  lemma ReverseTopBit()
    ensures Reverse8(0x80) == 1
  {
  }

  /** The framebuffer after `cip8_clear_display`. */
  function ClearedFrame(memory: seq<byte>): (r: seq<byte>)
    requires |memory| == MemorySize
    ensures |r| == MemorySize && r[..FrameBase] == memory[..FrameBase]
    ensures forall a :: FrameBase <= a < MemorySize ==> r[a] == 0
    ensures forall p :: 0 <= p < Pixels ==> !Pixel(r, p)
  {
    var r := memory[..FrameBase] + seq(FrameBytes, _ => 0);
    assert forall p :: 0 <= p < Pixels ==> r[FrameBase + p / 8] == 0;
    ZeroBits();
    r
  }

  lemma ZeroBits()
    ensures forall k :: !Bit(0, k)
  {
    forall k {
      ZeroBit(k);
    }
  }
}
