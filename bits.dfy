/** Small helper datatypes shared by the modules of the interpreter. */
module Results {
  datatype Option<T> = None | Some(value: T)

  datatype Result<T, E> = Ok(value: T) | Err(error: E)
}

/**
 * Machine integers and the bitwise operators of C, on unbounded naturals.
 *
 * `v << n` is `Shl(v, n)`, `v >> n` is `Shr(v, n)`, `a | b`, `a ^ b`, `a & b`
 * are `Or`, `Xor`, `And`, and `v & (1 << k)` being non-zero is `Bit(v, k)`.
 * A mask of the low bits (`v & 0xFF`) is written `v % 0x100`.
 */
module Bits {
  /** The source's `uint8_t`. */
  type byte = x: int | 0 <= x < 0x100

  /** The source's 16-bit `Addr` and `OpCode`. */
  type word = x: int | 0 <= x < 0x1_0000

  function Pow2(n: nat): (r: nat)
    ensures r >= 1
  {
    if n == 0 then 1 else 2 * Pow2(n - 1)
  }

  function Shl(v: nat, n: nat): (r: nat)
    ensures r == v * Pow2(n)
  {
    if n == 0 then v else 2 * Shl(v, n - 1)
  }

  function Shr(v: nat, n: nat): (r: nat)
    ensures r <= v
  {
    if n == 0 then v else Shr(v / 2, n - 1)
  }

  /** Bit `k` (bit 0 is the least significant) of `v`. */
  predicate Bit(v: nat, k: nat) {
    if k == 0 then v % 2 == 1 else Bit(v / 2, k - 1)
  }

  function Or(a: nat, b: nat): (r: nat)
    ensures r <= a + b
    decreases a + b
  {
    if a == 0 && b == 0 then 0
    else 2 * Or(a / 2, b / 2) + (if a % 2 == 1 || b % 2 == 1 then 1 else 0)
  }

  function Xor(a: nat, b: nat): (r: nat)
    decreases a + b
  {
    if a == 0 && b == 0 then 0
    else 2 * Xor(a / 2, b / 2) + (if a % 2 != b % 2 then 1 else 0)
  }

  function And(a: nat, b: nat): (r: nat)
    decreases a + b
  {
    if a == 0 || b == 0 then 0
    else 2 * And(a / 2, b / 2) + (if a % 2 == 1 && b % 2 == 1 then 1 else 0)
  }

  /** The three bitwise operators keep values below a power of two. */
  lemma {:induction false} BitwiseBelow(a: nat, b: nat, n: nat)
    requires a < Pow2(n) && b < Pow2(n)
    ensures Or(a, b) < Pow2(n) && Xor(a, b) < Pow2(n) && And(a, b) < Pow2(n)
    decreases n
  {
    if n > 0 && (a != 0 || b != 0) {
      BitwiseBelow(a / 2, b / 2, n - 1);
    }
  }

  function OrByte(a: byte, b: byte): (r: byte)
    ensures r >= a && r >= b
  {
    BitwiseBelow(a, b, 8);
    OrAbove(a, b);
    Or(a, b)
  }

  function XorByte(a: byte, b: byte): (r: byte) {
    BitwiseBelow(a, b, 8);
    Xor(a, b)
  }

  function AndByte(a: byte, b: byte): (r: byte)
    ensures r <= a && r <= b
  {
    BitwiseBelow(a, b, 8);
    AndBelow(a, b);
    And(a, b)
  }

  lemma {:induction false} OrAbove(a: nat, b: nat)
    ensures Or(a, b) >= a && Or(a, b) >= b
    decreases a + b
  {
    if a != 0 || b != 0 {
      OrAbove(a / 2, b / 2);
    }
  }

  lemma {:induction false} AndBelow(a: nat, b: nat)
    ensures And(a, b) <= a && And(a, b) <= b
    decreases a + b
  {
    if a != 0 && b != 0 {
      AndBelow(a / 2, b / 2);
    }
  }

  /** Two bits of `a ^ b` differ exactly where the bits of `a` and `b` differ. */
  lemma {:induction false} XorBit(a: nat, b: nat, k: nat)
    ensures Bit(Xor(a, b), k) == (Bit(a, k) != Bit(b, k))
    decreases k
  {
    if k > 0 {
      if a == 0 && b == 0 {
        ZeroBit(k);
      } else {
        XorBit(a / 2, b / 2, k - 1);
        assert Xor(a, b) / 2 == Xor(a / 2, b / 2);
        assert Bit(Xor(a, b), k) == Bit(Xor(a / 2, b / 2), k - 1);
        assert Bit(a, k) == Bit(a / 2, k - 1);
        assert Bit(b, k) == Bit(b / 2, k - 1);
      }
    }
  }

  /** A bit of `a | b` is set exactly where a bit of `a` or of `b` is set. */
  lemma {:induction false} OrBit(a: nat, b: nat, k: nat)
    ensures Bit(Or(a, b), k) == (Bit(a, k) || Bit(b, k))
    decreases k
  {
    if a == 0 && b == 0 {
      ZeroBit(k);
    } else if k > 0 {
      OrBit(a / 2, b / 2, k - 1);
      assert Or(a, b) / 2 == Or(a / 2, b / 2);
    }
  }

  /** A bit of `a & b` is set exactly where the bits of `a` and `b` are both set. */
  lemma {:induction false} AndBit(a: nat, b: nat, k: nat)
    ensures Bit(And(a, b), k) == (Bit(a, k) && Bit(b, k))
    decreases k
  {
    if a == 0 || b == 0 {
      ZeroBit(k);
    } else if k > 0 {
      AndBit(a / 2, b / 2, k - 1);
      assert And(a, b) / 2 == And(a / 2, b / 2);
    }
  }

  lemma {:induction false} ZeroBit(k: nat)
    ensures !Bit(0, k)
  {
    if k > 0 {
      ZeroBit(k - 1);
    }
  }

  /** XOR with a fixed value is its own inverse. */
  lemma {:induction false} XorInvolutive(a: nat, b: nat)
    ensures Xor(Xor(a, b), b) == a
    decreases a + b
  {
    if a != 0 || b != 0 {
      XorInvolutive(a / 2, b / 2);
      var c := Xor(a, b);
      assert c / 2 == Xor(a / 2, b / 2);
    }
  }

  lemma {:induction false} XorWithSelf(a: nat)
    ensures Xor(a, a) == 0
    decreases a
  {
    if a != 0 {
      XorWithSelf(a / 2);
    }
  }

  /** `a ^ b == b` holds exactly when `a` is zero. */
  lemma XorFixesOnlyZero(a: nat, b: nat)
    ensures Xor(a, b) == b <==> a == 0
  {
    XorInvolutive(a, b);
    XorWithSelf(b);
    XorInvolutive(0, b);
    XorWithSelf(0);
    assert Xor(0, b) == Xor(Xor(b, b), b);
  }

  /** The low `n` bits of `v`: what storing `v` into an `n`-bit unsigned variable keeps. */
  function Low(v: nat, n: nat): (r: nat)
    ensures r < Pow2(n)
  {
    if n == 0 then 0 else 2 * Low(v / 2, n - 1) + v % 2
  }

  /** Truncation keeps exactly the bits below `n`. */
  lemma {:induction false} BitOfLow(v: nat, n: nat, j: nat)
    ensures Bit(Low(v, n), j) == (j < n && Bit(v, j))
    decreases n
  {
    if n == 0 {
      ZeroBit(j);
    } else if j > 0 {
      BitOfLow(v / 2, n - 1, j - 1);
    }
  }

  /** A value that already fits is unchanged by truncation. */
  lemma {:induction false} LowOfSmall(v: nat, n: nat)
    requires v < Pow2(n)
    ensures Low(v, n) == v
    decreases n
  {
    if n > 0 {
      LowOfSmall(v / 2, n - 1);
    }
  }

  lemma {:induction false} OrZero(a: nat)
    ensures Or(a, 0) == a
    decreases a
  {
    if a != 0 {
      OrZero(a / 2);
    }
  }

  lemma {:induction false} BitOfShl(v: nat, s: nat, j: nat)
    ensures Bit(Shl(v, s), j) == (j >= s && Bit(v, j - s))
    decreases s
  {
    if s > 0 {
      if j > 0 {
        BitOfShl(v, s - 1, j - 1);
      }
    }
  }

  lemma {:induction false} BitOfShr(v: nat, m: nat, j: nat)
    ensures Bit(Shr(v, m), j) == Bit(v, j + m)
    decreases m
  {
    if m > 0 {
      BitOfShr(v / 2, m - 1, j);
    }
  }

  /** A value below `2^n` has no bit at or above position `n`. */
  lemma {:induction false} BitAbove(v: nat, n: nat, j: nat)
    requires v < Pow2(n) && j >= n
    ensures !Bit(v, j)
    decreases n
  {
    if n == 0 {
      ZeroBit(j);
    } else {
      BitAbove(v / 2, n - 1, j - 1);
    }
  }

  /** Below `2^(n+1)`, bit `n` is set exactly when the value reaches `2^n`. */
  lemma {:induction false} TopBit(v: nat, n: nat)
    requires v < 2 * Pow2(n)
    ensures Bit(v, n) <==> v >= Pow2(n)
  {
    if n > 0 {
      TopBit(v / 2, n - 1);
    }
  }

  /** Values below `2^n` that agree on their low `n` bits are equal. */
  lemma {:induction false} SameBits(a: nat, b: nat, n: nat)
    requires a < Pow2(n) && b < Pow2(n)
    requires forall j :: 0 <= j < n ==> Bit(a, j) == Bit(b, j)
    ensures a == b
    decreases n
  {
    if n > 0 {
      forall j | 0 <= j < n - 1
        ensures Bit(a / 2, j) == Bit(b / 2, j)
      {
        assert Bit(a, j + 1) == Bit(b, j + 1);
      }
      SameBits(a / 2, b / 2, n - 1);
      assert Bit(a, 0) == Bit(b, 0);
    }
  }

  /** A left shift by `n` leaves room for any value below `2^n`: OR is then addition. */
  lemma {:induction false} OrDisjoint(a: nat, b: nat, n: nat)
    requires b < Pow2(n)
    ensures Or(Shl(a, n), b) == Shl(a, n) + b
    decreases n
  {
    if n > 0 {
      var h := Shl(a, n - 1);
      OrDisjoint(a, b / 2, n - 1);
      if h != 0 || b != 0 {
        assert Or(2 * h, b) == 2 * Or(h, b / 2) + (if b % 2 == 1 then 1 else 0);
      }
    } else {
      assert b == 0;
      OrZero(a);
    }
  }

  /** The eight bits of a byte in the opposite order (the blit's bit reversal). */
  function Reverse8(a: byte): (r: byte) {
    Shr(a, 7) % 2
    + 2 * (Shr(a, 6) % 2)
    + 4 * (Shr(a, 5) % 2)
    + 8 * (Shr(a, 4) % 2)
    + 16 * (Shr(a, 3) % 2)
    + 32 * (Shr(a, 2) % 2)
    + 64 * (Shr(a, 1) % 2)
    + 128 * (a % 2)
  }

  lemma BitIsShr(v: nat, k: nat)
    ensures Bit(v, k) == (Shr(v, k) % 2 == 1)
  {
    BitOfShr(v, k, 0);
  }

  /** The number whose binary digits, least significant first, are `bs`. */
  function FromDigits(bs: seq<nat>): (r: nat) {
    if bs == [] then 0 else bs[0] + 2 * FromDigits(bs[1..])
  }

  lemma {:induction false} BitOfDigits(bs: seq<nat>, k: nat)
    requires forall i :: 0 <= i < |bs| ==> bs[i] < 2
    ensures Bit(FromDigits(bs), k) == (k < |bs| && bs[k] == 1)
    decreases bs
  {
    if bs == [] {
      ZeroBit(k);
    } else {
      assert FromDigits(bs) / 2 == FromDigits(bs[1..]);
      if k > 0 {
        BitOfDigits(bs[1..], k - 1);
      }
    }
  }

  /** The binary digits of `Reverse8(a)`, least significant first. */
  function ReversedDigits(a: byte): (ds: seq<nat>)
    ensures |ds| == 8 && forall i :: 0 <= i < 8 ==> ds[i] == Shr(a, 7 - i) % 2
  {
    [Shr(a, 7) % 2, Shr(a, 6) % 2, Shr(a, 5) % 2, Shr(a, 4) % 2,
     Shr(a, 3) % 2, Shr(a, 2) % 2, Shr(a, 1) % 2, Shr(a, 0) % 2]
  }

  lemma ReverseIsDigits(a: byte)
    ensures Reverse8(a) == FromDigits(ReversedDigits(a))
  {
    var ds := ReversedDigits(a);
    assert FromDigits(ds[8..]) == 0;
    assert FromDigits(ds[7..]) == ds[7];
    assert FromDigits(ds[6..]) == ds[6] + 2 * FromDigits(ds[7..]);
    assert FromDigits(ds[5..]) == ds[5] + 2 * FromDigits(ds[6..]);
    assert FromDigits(ds[4..]) == ds[4] + 2 * FromDigits(ds[5..]);
    assert FromDigits(ds[3..]) == ds[3] + 2 * FromDigits(ds[4..]);
    assert FromDigits(ds[2..]) == ds[2] + 2 * FromDigits(ds[3..]);
    assert FromDigits(ds[1..]) == ds[1] + 2 * FromDigits(ds[2..]);
    assert FromDigits(ds) == ds[0] + 2 * FromDigits(ds[1..]);
  }

  /** Bit `k` of the reversed byte is bit `7 - k` of the original. */
  lemma ReverseBit(a: byte, k: nat)
    requires k < 8
    ensures Bit(Reverse8(a), k) == Bit(a, 7 - k)
  {
    ReverseIsDigits(a);
    BitOfDigits(ReversedDigits(a), k);
    BitIsShr(a, 7 - k);
  }

  /** Reversing twice gives the byte back. */
  lemma ReverseInvolutive(a: byte)
    ensures Reverse8(Reverse8(a)) == a
  {
    forall j | 0 <= j < 8
      ensures Bit(Reverse8(Reverse8(a)), j) == Bit(a, j)
    {
      ReverseBit(Reverse8(a), j);
      ReverseBit(a, 7 - j);
    }
    SameBits(Reverse8(Reverse8(a)), a, 8);
  }
}
