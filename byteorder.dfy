/** Fixed-width unsigned integers and the byte-order macros of the FAT engine
    (LD_WORD, LD_DWORD, ST_WORD, ST_DWORD), plus the bitwise AND the C code
    applies to unsigned values. C's silent wrap-around is written out with the
    `...Of` conversions. */
module ByteOrder {

  const TWO8: int := 0x100
  const TWO16: int := 0x1_0000
  const TWO28: int := 0x1000_0000
  const TWO32: int := 0x1_0000_0000

  type Byte = b: int | 0 <= b < 0x100
  type U16 = w: int | 0 <= w < 0x1_0000
  type U32 = d: int | 0 <= d < 0x1_0000_0000

  /** Conversion of a C integer value to an unsigned 8/16/32-bit type. */
  function ByteOf(x: int): Byte { x % TWO8 }
  function U16Of(x: int): U16 { x % TWO16 }
  function U32Of(x: int): U32 { x % TWO32 }

  /** A value that already fits is left alone by the conversions. */
  lemma FitsUnchanged(x: int)
    ensures 0 <= x < TWO32 ==> U32Of(x) == x
    ensures 0 <= x < TWO16 ==> U16Of(x) == x
    ensures 0 <= x < TWO8 ==> ByteOf(x) == x
  {
  }

  /** LD_WORD: little-endian 16-bit load from p[at], p[at+1]. */
  function LdWord(p: seq<Byte>, at: nat): (w: U16)
    requires at + 2 <= |p|
    ensures w % TWO8 == p[at] && w / TWO8 == p[at + 1]
  {
    p[at] + TWO8 * p[at + 1]
  }

  /** LD_DWORD: little-endian 32-bit load from p[at..at+4]. */
  function LdDword(p: seq<Byte>, at: nat): (d: U32)
    requires at + 4 <= |p|
    ensures d % TWO16 == LdWord(p, at) && d / TWO16 == LdWord(p, at + 2)
  {
    p[at] + TWO8 * p[at + 1] + TWO16 * p[at + 2] + (0x100_0000 as int) * p[at + 3]
  }

  /** ST_WORD: the two bytes stored for a value, low byte first. */
  function StWord(val: int): (s: seq<Byte>)
    ensures |s| == 2
  {
    [ByteOf(val), ByteOf(U16Of(val) / TWO8)]
  }

  /** ST_DWORD: the four bytes stored for a value, low byte first. */
  function StDword(val: int): (s: seq<Byte>)
    ensures |s| == 4
  {
    [ByteOf(val), ByteOf(U16Of(val) / TWO8), ByteOf(U32Of(val) / TWO16), ByteOf(U32Of(val) / 0x100_0000)]
  }

  lemma WordDigits(v: U16)
    ensures v == v % TWO8 + TWO8 * (v / TWO8) && v / TWO8 < TWO8
  {
  }

  /** Loading a stored 16-bit value gives it back. */
  lemma LoadStoreWord(v: U16)
    ensures LdWord(StWord(v), 0) == v
  {
    WordDigits(v);
    FitsUnchanged(v);
    FitsUnchanged(v / TWO8);
    assert StWord(v) == [v % TWO8, v / TWO8];
  }

  /** Storing a loaded 16-bit value gives back the two bytes. */
  lemma StoreLoadWord(p: seq<Byte>)
    requires |p| == 2
    ensures StWord(LdWord(p, 0)) == p
  {
    var w := LdWord(p, 0);
    assert w % TWO8 == p[0] && w / TWO8 == p[1];
    FitsUnchanged(w);
    FitsUnchanged(w / TWO8);
    assert StWord(w) == [p[0], p[1]];
  }

  /** The value of ST_DWORD's four bytes, read byte by byte. */
  lemma DwordDigits(v: U32)
    ensures v % TWO8 == ByteOf(v)
    ensures (v % TWO16) / TWO8 == ByteOf(U16Of(v) / TWO8)
    ensures v / TWO16 % TWO8 == ByteOf(U32Of(v) / TWO16)
    ensures v / 0x100_0000 == ByteOf(U32Of(v) / 0x100_0000)
    ensures v == v % TWO16 + TWO16 * (v / TWO16)
    ensures v / TWO16 == v / TWO16 % TWO8 + TWO8 * (v / 0x100_0000)
  {
    assert v / 0x100_0000 < TWO8;
    assert v / 0x100_0000 == (v / TWO16) / TWO8;
  }

  /** Loading a stored 32-bit value gives it back. */
  lemma LoadStoreDword(v: U32)
    ensures LdDword(StDword(v), 0) == v
  {
    var s := StDword(v);
    DwordDigits(v);
    var lo := v % TWO16;
    var hi := v / TWO16;
    WordDigits(lo);
    WordDigits(hi);
    assert LdWord(s, 0) == lo;
    assert LdWord(s, 2) == hi;
  }

  /** 2 to the power k. */
  function Pow2(k: nat): (r: nat)
    ensures r >= 1
  {
    if k == 0 then 1 else 2 * Pow2(k - 1)
  }

  /** The C operator `&` on non-negative integers, bit by bit from the least
      significant end. */
  function BitAnd(a: nat, b: nat): (r: nat)
    ensures r <= a && r <= b
  {
    if a == 0 || b == 0 then 0
    else 2 * BitAnd(a / 2, b / 2) + (if a % 2 == 1 && b % 2 == 1 then 1 else 0)
  }

  /** The C operator `|` on non-negative integers, bit by bit from the least
      significant end. */
  function BitOr(a: nat, b: nat): (r: nat)
    ensures r >= a && r >= b
  {
    if a == 0 then b
    else if b == 0 then a
    else 2 * BitOr(a / 2, b / 2) + (if a % 2 == 1 || b % 2 == 1 then 1 else 0)
  }

  /** OR of two values below 2^n stays below 2^n. */
  lemma {:induction false} BitOrBelow(a: nat, b: nat, n: nat)
    requires a < Pow2(n) && b < Pow2(n)
    ensures BitOr(a, b) < Pow2(n)
  {
    if a > 0 && b > 0 {
      BitOrBelow(a / 2, b / 2, n - 1);
    }
  }

  /** OR with the single bit 2^k of a value below 2^k adds that bit. */
  lemma {:induction false} BitOrHighBit(k: nat, x: nat)
    ensures x < Pow2(k) ==> BitOr(Pow2(k), x) == Pow2(k) + x
  {
    if k > 0 && 0 < x < Pow2(k) {
      var h := Pow2(k - 1);
      assert Pow2(k) / 2 == h && Pow2(k) % 2 == 0;
      BitOrHighBit(k - 1, x / 2);
    }
  }

  /** AND with a mask of k low one-bits keeps the remainder modulo 2^k: for a
      power-of-two cluster size, `x & (csize - 1)` is `x % csize`. */
  lemma BitAndLowMask(x: nat, k: nat)
    ensures BitAnd(x, Pow2(k) - 1) == x % Pow2(k)
  {
    BitAndLowBits(x, k);
    LowBitsMod(x, k);
  }

  /** The k low bits of x, taken one at a time. */
  function LowBits(x: nat, k: nat): nat
  {
    if k == 0 then 0 else 2 * LowBits(x / 2, k - 1) + x % 2
  }

  lemma {:induction false} BitAndLowBits(x: nat, k: nat)
    ensures BitAnd(x, Pow2(k) - 1) == LowBits(x, k)
  {
    if k == 0 {
    } else if x == 0 {
      assert LowBits(0, k) == 2 * LowBits(0, k - 1);
      BitAndLowBits(0, k - 1);
    } else {
      var mask := Pow2(k) - 1;
      assert mask == 2 * (Pow2(k - 1) - 1) + 1;
      DivModUnique(mask, 2, Pow2(k - 1) - 1, 1);
      BitAndLowBits(x / 2, k - 1);
    }
  }

  lemma {:induction false} LowBitsMod(x: nat, k: nat)
    ensures LowBits(x, k) == x % Pow2(k)
  {
    if k > 0 {
      LowBitsMod(x / 2, k - 1);
      ModHalf(x, Pow2(k - 1));
    }
  }

  /** Division with remainder is unique. */
  lemma DivModUnique(x: int, d: int, q: int, r: int)
    requires d > 0 && 0 <= r < d && x == q * d + r
    ensures x / d == q && x % d == r
  {
    var q0 := x / d;
    var r0 := x % d;
    assert x == q0 * d + r0;
    assert (q - q0) * d == r0 - r;
    if q > q0 {
      MulAtLeast(q - q0, d);
      assert false;
    } else if q < q0 {
      MulAtLeast(q0 - q, d);
      assert false;
    }
  }

  lemma MulAtLeast(k: int, d: int)
    requires k >= 1 && d > 0
    ensures k * d >= d
  {
    assert k * d == (k - 1) * d + d;
    assert (k - 1) * d >= 0;
  }

  lemma ModHalf(x: nat, m: nat)
    requires m >= 1
    ensures x % (2 * m) == 2 * ((x / 2) % m) + x % 2
  {
    var h := x / 2;
    var q := h / m;
    var r := h % m;
    assert h == q * m + r;
    assert x == 2 * h + x % 2;
    assert 2 * h == q * (2 * m) + 2 * r;
    DivModUnique(x, 2 * m, q, 2 * r + x % 2);
  }

  /** `x & (1 << k)` is non-zero exactly when bit k of x is set. */
  lemma {:induction false} BitAndSingleBit(x: nat, k: nat)
    ensures (BitAnd(x, Pow2(k)) != 0) == ((x / Pow2(k)) % 2 == 1)
  {
    if k == 0 {
    } else if x == 0 {
    } else {
      var p := Pow2(k);
      assert p == 2 * Pow2(k - 1);
      DivModUnique(p, 2, Pow2(k - 1), 0);
      BitAndSingleBit(x / 2, k - 1);
      DivDiv(x, 2, Pow2(k - 1));
    }
  }

  lemma DivDiv(x: nat, a: nat, b: nat)
    requires a >= 1 && b >= 1
    ensures x / a / b == x / (a * b)
  {
    var h := x / a;
    var q := h / b;
    var r2 := h % b;
    var r1 := x % a;
    assert x == h * a + r1;
    assert h == q * b + r2;
    MulSplit(q * b, r2, a);
    assert h * a == (q * b) * a + r2 * a;
    assert (q * b) * a == q * (a * b);
    MulBelow(r2, b, a);
    DivModUnique(x, a * b, q, r2 * a + r1);
  }

  lemma MulSplit(u: int, v: int, a: int)
    ensures (u + v) * a == u * a + v * a
  {
  }

  lemma MulBelow(r: int, b: int, a: int)
    requires 0 <= r < b && a >= 1
    ensures r * a + a <= a * b
  {
    MulAtLeast(b - r, a);
    assert (b - r) * a == a * b - r * a;
  }

  /** Bit i of x, bit 0 being the least significant. */
  function Bit(x: nat, i: nat): bool
  {
    if i == 0 then x % 2 == 1 else Bit(x / 2, i - 1)
  }

  /** The C operator `<<` on non-negative integers, before any truncation. */
  function Shl(x: nat, k: nat): (r: nat)
    ensures x == 0 ==> r == 0
  {
    if k == 0 then x else 2 * Shl(x, k - 1)
  }

  lemma {:induction false} ZeroBit(i: nat)
    ensures !Bit(0, i)
  {
    if i > 0 {
      ZeroBit(i - 1);
    }
  }

  /** `&` works bit by bit. */
  lemma {:induction false} BitAndBit(a: nat, b: nat, i: nat)
    ensures Bit(BitAnd(a, b), i) == (Bit(a, i) && Bit(b, i))
  {
    if a == 0 || b == 0 {
      ZeroBit(i);
    } else if i > 0 {
      BitAndBit(a / 2, b / 2, i - 1);
    }
  }

  /** `|` works bit by bit. */
  lemma {:induction false} BitOrBit(a: nat, b: nat, i: nat)
    ensures Bit(BitOr(a, b), i) == (Bit(a, i) || Bit(b, i))
  {
    if a == 0 || b == 0 {
      ZeroBit(i);
    } else if i > 0 {
      BitOrBit(a / 2, b / 2, i - 1);
    }
  }

  /** Shifting left by k moves bit i - k to bit i and clears the k low bits. */
  lemma {:induction false} ShlBit(x: nat, k: nat, i: nat)
    ensures Bit(Shl(x, k), i) == (i >= k && Bit(x, i - k))
  {
    if k > 0 && i > 0 {
      ShlBit(x, k - 1, i - 1);
    }
  }

  /** `x << k` is x times 2^k. */
  lemma {:induction false} ShlMul(x: nat, k: nat)
    ensures Shl(x, k) == x * Pow2(k)
  {
    if k > 0 {
      ShlMul(x, k - 1);
      assert x * Pow2(k) == 2 * (x * Pow2(k - 1));
    }
  }

  /** `x & (1 << k)` is non-zero exactly when bit k of x is set. */
  lemma {:induction false} BitAndPow2(x: nat, k: nat)
    ensures (BitAnd(x, Pow2(k)) != 0) == Bit(x, k)
  {
    if x > 0 && k == 0 {
      assert Pow2(0) == 1 && BitAnd(x / 2, 0) == 0;
      assert BitAnd(x, 1) == x % 2;
    } else if x > 0 {
      var p := Pow2(k);
      assert p / 2 == Pow2(k - 1) && p % 2 == 0;
      assert BitAnd(x, p) == 2 * BitAnd(x / 2, Pow2(k - 1));
      BitAndPow2(x / 2, k - 1);
    } else {
      ZeroBit(k);
    }
  }

  /** OR with a value shifted above the bits of a adds the two. */
  lemma {:induction false} BitOrShl(a: nat, b: nat, k: nat)
    requires a < Pow2(k)
    ensures BitOr(a, Shl(b, k)) == a + Shl(b, k)
  {
    if a > 0 && b > 0 {
      BitOrShl(a / 2, b, k - 1);
    }
  }

  /** The complement of m within n bits has the opposite bits. */
  lemma {:induction false} ComplementBit(m: nat, n: nat, i: nat)
    requires m < Pow2(n) && i < n
    ensures Bit(Pow2(n) - 1 - m, i) == !Bit(m, i)
  {
    if i > 0 {
      ComplementBit(m / 2, n - 1, i - 1);
    }
  }

  /** Reducing modulo 2^n keeps the n low bits. */
  lemma {:induction false} ModBit(x: nat, n: nat, i: nat)
    requires i < n
    ensures Bit(x % Pow2(n), i) == Bit(x, i)
  {
    var m := Pow2(n - 1);
    var y, a := x % Pow2(n), (x / 2) % m;
    assert y == a * 2 + x % 2 by {
      ModHalf(x, m);
    }
    DivModUnique(y, 2, a, x % 2);
    if i > 0 {
      assert Bit(y, i) == Bit(a, i - 1);
      ModBit(x / 2, n - 1, i - 1);
    }
  }

  /** Two numbers below 2^n with the same n low bits are equal. */
  lemma {:induction false} BitsEqual(a: nat, b: nat, n: nat)
    requires a < Pow2(n) && b < Pow2(n)
    requires forall i :: 0 <= i < n ==> Bit(a, i) == Bit(b, i)
    ensures a == b
  {
    if n > 0 {
      assert Bit(a, 0) == Bit(b, 0);
      forall i | 0 <= i < n - 1
        ensures Bit(a / 2, i) == Bit(b / 2, i)
      {
        assert Bit(a, i + 1) == Bit(b, i + 1);
      }
      BitsEqual(a / 2, b / 2, n - 1);
    }
  }
}
