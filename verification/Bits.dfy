// Shifts, bit lengths and big-endian byte strings: the arithmetic the range
// coders share. Shifts are defined one bit at a time, so that their laws need
// only linear arithmetic.

module Bits {

  type Byte = x: int | 0 <= x < 256

  // ---- Python's << and >> on integers of any sign (>> floors)

  function Shl(x: int, n: nat): int {
    if n == 0 then x else 2 * Shl(x, n - 1)
  }

  function Shr(x: int, n: nat): int {
    if n == 0 then x else Shr(x, n - 1) / 2
  }

  function Pow2(n: nat): int {
    Shl(1, n)
  }

  /** The n low bits: x & ((1 << n) - 1). */
  function Low(x: int, n: nat): int {
    x - Shl(Shr(x, n), n)
  }

  lemma {:induction false} ShlSum(x: int, y: int, n: nat)
    ensures Shl(x + y, n) == Shl(x, n) + Shl(y, n)
  {
    if n > 0 {
      ShlSum(x, y, n - 1);
    }
  }

  lemma {:induction false} ShlLess(x: int, y: int, n: nat)
    ensures x < y <==> Shl(x, n) < Shl(y, n)
    ensures x == y <==> Shl(x, n) == Shl(y, n)
  {
    if n > 0 {
      ShlLess(x, y, n - 1);
    }
  }

  lemma {:induction false} ShlZero(n: nat)
    ensures Shl(0, n) == 0
  {
    if n > 0 {
      ShlZero(n - 1);
    }
  }

  lemma ShlNat(x: nat, n: nat)
    ensures Shl(x, n) >= 0
    ensures x > 0 ==> Shl(x, n) > 0
  {
    ShlZero(n);
    ShlLess(0, x, n);
  }

  /** Shifting up by one more than needed leaves a gap of Pow2(n). */
  lemma ShlStep(x: int, y: int, n: nat)
    requires x < y
    ensures Shl(x, n) + Pow2(n) <= Shl(y, n)
  {
    ShlSum(x, 1, n);
    ShlLess(y, x + 1, n);
  }

  lemma {:induction false} ShlShl(x: int, n: nat, m: nat)
    ensures Shl(Shl(x, n), m) == Shl(x, n + m)
  {
    if m > 0 {
      ShlShl(x, n, m - 1);
      assert Shl(x, n + m) == 2 * Shl(x, n + (m - 1));
    }
  }

  lemma {:induction false} ShrShr(x: int, n: nat, m: nat)
    ensures Shr(Shr(x, n), m) == Shr(x, n + m)
  {
    if m > 0 {
      ShrShr(x, n, m - 1);
      assert Shr(x, n + m) == Shr(x, n + (m - 1)) / 2;
    }
  }

  lemma {:induction false} LowBounds(x: int, n: nat)
    ensures 0 <= Low(x, n) < Pow2(n)
  {
    if n > 0 {
      LowBounds(x, n - 1);
      var h := Shr(x, n - 1);
      assert h == 2 * (h / 2) + h % 2;
      ShlSum(2 * (h / 2), h % 2, n - 1);
      ShlDouble(h / 2, n - 1);
      ShlZero(n - 1);
    }
  }

  lemma ShlDouble(x: int, n: nat)
    ensures Shl(2 * x, n) == Shl(x, n + 1)
  {
    ShlSum(x, x, n);
  }

  /** Shr is the only q with q * 2^n <= x < (q + 1) * 2^n. */
  lemma ShrUnique(x: int, n: nat, q: int)
    requires Shl(q, n) <= x < Shl(q, n) + Pow2(n)
    ensures Shr(x, n) == q
  {
    LowBounds(x, n);
    ShlSum(q, 1, n);
    ShlSum(Shr(x, n), 1, n);
    ShlLess(q, Shr(x, n) + 1, n);
    ShlLess(Shr(x, n), q + 1, n);
  }

  lemma ShrSplit(q: int, r: int, n: nat)
    requires 0 <= r < Pow2(n)
    ensures Shr(Shl(q, n) + r, n) == q && Low(Shl(q, n) + r, n) == r
  {
    ShrUnique(Shl(q, n) + r, n, q);
  }

  lemma LowSmall(x: int, n: nat)
    requires 0 <= x < Pow2(n)
    ensures Shr(x, n) == 0 && Low(x, n) == x
  {
    ShlZero(n);
    ShrSplit(0, x, n);
  }

  /** The low bits of a multiple of 2^n are a multiple of 2^n too. */
  lemma LowMultiple(g: int, n: nat, k: nat)
    ensures Low(Shl(g, n), k) == if k >= n then Shl(Low(g, k - n), n) else 0
  {
    if k >= n {
      ShrShl(g, k - n, n);
      ShlShl(Shr(g, k - n), k - n, n);
      ShlSum(g, -Shl(Shr(g, k - n), k - n), n);
      ShlSum(Shl(Shr(g, k - n), k - n), -Shl(Shr(g, k - n), k - n), n);
      ShlZero(n);
    } else {
      ShlShl(g, n - k, k);
      Pow2Pos(k);
      ShrSplit(Shl(g, n - k), 0, k);
    }
  }

  lemma LowShl(g: int, n: nat)
    ensures Shr(Shl(g, n), n) == g && Low(Shl(g, n), n) == 0
  {
    Pow2Pos(n);
    ShrSplit(g, 0, n);
  }

  lemma LowFewer(x: int, n: nat, k: nat)
    requires Low(x, n) == 0 && k <= n
    ensures Low(x, k) == 0
  {
    LowMultiple(Shr(x, n), n, k);
    ShlZero(n);
    LowShl(Shl(Shr(x, n), n - k), k);
    ShlShl(Shr(x, n), n - k, k);
  }

  lemma LowMinus(x: int, y: int, n: nat)
    requires Low(x, n) == 0 && 0 <= y < Pow2(n)
    ensures Low(x - y, n) == if y == 0 then 0 else Pow2(n) - y
  {
    var q := Shr(x, n);
    if y == 0 {
      assert x - y == x;
    } else {
      ShlSum(q - 1, 1, n);
      ShrSplit(q - 1, Pow2(n) - y, n);
    }
  }

  /** x >> n is below q exactly when x is below q << n. */
  lemma ShrLess(x: int, n: nat, q: int)
    ensures Shr(x, n) < q <==> x < Shl(q, n)
  {
    LowBounds(x, n);
    ShlSum(Shr(x, n), 1, n);
    ShlLess(q, Shr(x, n) + 1, n);
    ShlLess(Shr(x, n), q, n);
  }

  lemma ShrNat(x: nat, n: nat)
    ensures 0 <= Shr(x, n) <= x
  {
    ShlZero(n);
    ShrLess(x, n, 0);
    ShlGrows(x + 1, n);
    ShrLess(x, n, x + 1);
  }

  lemma {:induction false} ShlGrows(x: nat, n: nat)
    ensures Shl(x, n) >= x
  {
    if n > 0 {
      ShlGrows(x, n - 1);
    }
  }

  lemma ShrShl(x: int, n: nat, m: nat)
    ensures Shr(Shl(x, m), n + m) == Shr(x, n)
  {
    Pow2Pos(m);
    ShrSplit(x, 0, m);
    ShrShr(Shl(x, m), m, n);
  }

  lemma Pow2Pos(n: nat)
    ensures Pow2(n) > 0
  {
    ShlNat(1, n);
  }

  lemma Pow2Shl(a: nat, n: nat)
    ensures Shl(Pow2(a), n) == Pow2(a + n)
  {
    ShlShl(1, a, n);
  }

  lemma {:induction false} Pow2Mono(a: nat, b: nat)
    requires a <= b
    ensures 0 < Pow2(a) <= Pow2(b)
  {
    Pow2Pos(a);
    if a < b {
      Pow2Mono(a, b - 1);
    }
  }

  lemma Pow2Values()
    ensures Pow2(0) == 1 && Pow2(1) == 2 && Pow2(2) == 4 && Pow2(3) == 8 && Pow2(4) == 16
    ensures Pow2(7) == 128 && Pow2(8) == 256 && Pow2(14) == 0x4000 && Pow2(15) == 0x8000
    ensures Pow2(16) == 0x10000
  {
    assert Shl(1, 4) == 2 * Shl(1, 3) == 4 * Shl(1, 2) == 8 * Shl(1, 1) == 16;
    assert Shl(1, 8) == 2 * Shl(1, 7) == 4 * Shl(1, 6) == 8 * Shl(1, 5) == 16 * Shl(1, 4);
    assert Shl(1, 12) == 2 * Shl(1, 11) == 4 * Shl(1, 10) == 8 * Shl(1, 9) == 16 * Shl(1, 8);
    assert Shl(1, 16) == 2 * Shl(1, 15) == 4 * Shl(1, 14) == 8 * Shl(1, 13) == 16 * Shl(1, 12);
  }

  lemma Pow2Words()
    ensures Pow2(23) == 0x800000 && Pow2(24) == 0x1000000 && Pow2(31) == 0x80000000 && Pow2(32) == 0x1_0000_0000
  {
    Pow2Values();
    ShlByte(1, 15);
    ShlByte(1, 16);
    ShlByte(1, 23);
    ShlByte(1, 24);
  }

  lemma ShlByte(x: int, n: nat)
    ensures Shl(x, n + 8) == 256 * Shl(x, n)
  {
    assert Shl(x, n + 8) == 2 * Shl(x, n + 7) == 4 * Shl(x, n + 6) == 8 * Shl(x, n + 5) == 16 * Shl(x, n + 4);
    assert Shl(x, n + 4) == 2 * Shl(x, n + 3) == 4 * Shl(x, n + 2) == 8 * Shl(x, n + 1) == 16 * Shl(x, n);
  }

  // ---- | on non-negative numbers

  function Or(x: nat, y: nat): nat {
    if x == 0 then y
    else if y == 0 then x
    else 2 * Or(x / 2, y / 2) + (if x % 2 == 1 || y % 2 == 1 then 1 else 0)
  }

  /** Bits that do not overlap add up. */
  lemma {:induction false} OrSum(x: nat, y: nat, n: nat)
    requires y < Pow2(n)
    ensures Shl(x, n) >= 0
    ensures Or(Shl(x, n), y) == Or(y, Shl(x, n)) == Shl(x, n) + y
  {
    ShlNat(x, n);
    ShlZero(n);
    if n > 0 && x > 0 && y > 0 {
      ShlNat(x, n - 1);
      var h := Shl(x, n - 1);
      assert Shl(x, n) == 2 * h && (2 * h) / 2 == h && (2 * h) % 2 == 0;
      OrSum(x, y / 2, n - 1);
    }
  }

  lemma {:induction false} OrBound(x: nat, y: nat, n: nat)
    requires x < Pow2(n) && y < Pow2(n)
    ensures 0 <= Or(x, y) < Pow2(n)
  {
    if n > 0 && x > 0 && y > 0 {
      OrBound(x / 2, y / 2, n - 1);
    }
  }

  // ---- int.bit_length

  function BitLen(x: nat): nat {
    if x == 0 then 0 else 1 + BitLen(x / 2)
  }

  lemma {:induction false} BitLenBounds(x: nat)
    requires x > 0
    ensures BitLen(x) >= 1
    ensures Pow2(BitLen(x) - 1) <= x < Pow2(BitLen(x))
  {
    if x > 1 {
      BitLenBounds(x / 2);
    }
  }

  lemma BitLenUnique(x: nat, n: nat)
    requires n >= 1 && Pow2(n - 1) <= x < Pow2(n)
    ensures BitLen(x) == n
  {
    Pow2Pos(n - 1);
    BitLenBounds(x);
    Pow2Apart(n, BitLen(x), x);
    Pow2Apart(BitLen(x), n, x);
  }

  lemma Pow2Apart(n: nat, m: nat, x: int)
    requires 1 <= m && x < Pow2(n) && Pow2(m - 1) <= x
    ensures m <= n
  {
    if n < m {
      Pow2Mono(n, m - 1);
    }
  }

  // ---- big-endian byte strings

  function Be(s: seq<Byte>): nat {
    if |s| == 0 then 0 else Be(s[..|s| - 1]) * 256 + s[|s| - 1]
  }

  lemma BeSnoc(s: seq<Byte>, b: Byte)
    ensures Be(s + [b]) == Be(s) * 256 + b
  {
    assert (s + [b])[..|s|] == s;
  }

  lemma {:induction false} BeBound(s: seq<Byte>)
    ensures Be(s) < Pow2(8 * |s|)
  {
    if |s| > 0 {
      BeBound(s[..|s| - 1]);
      ShlByte(1, 8 * (|s| - 1));
    }
  }

  lemma {:induction false} BeConcat(s: seq<Byte>, t: seq<Byte>)
    ensures Be(s + t) == Shl(Be(s), 8 * |t|) + Be(t)
  {
    if |t| == 0 {
      assert s + t == s;
    } else {
      var n := |t| - 1;
      assert s + t == (s + t[..n]) + [t[n]];
      BeSnoc(s + t[..n], t[n]);
      BeConcat(s, t[..n]);
      ShlByte(Be(s), 8 * n);
    }
  }

  /** The next byte string of the same length; the last one wraps around. */
  function Inc(s: seq<Byte>): (r: seq<Byte>)
    ensures |r| == |s|
  {
    var n := |s| - 1;
    if n < 0 then []
    else if s[n] == 255 then Inc(s[..n]) + [0]
    else s[..n] + [s[n] + 1]
  }

  lemma {:induction false} BeInc(s: seq<Byte>)
    requires Be(s) + 1 < Pow2(8 * |s|)
    ensures Be(Inc(s)) == Be(s) + 1
  {
    var n := |s| - 1;
    if n >= 0 {
      if s[n] == 255 {
        ShlByte(1, 8 * n);
        BeInc(s[..n]);
        BeSnoc(Inc(s[..n]), 0);
      } else {
        BeSnoc(s[..n], s[n] + 1);
      }
    }
  }

  /** The n low bytes of x, most significant first. */
  function ToBe(x: nat, n: nat): (s: seq<Byte>)
    ensures |s| == n
  {
    if n == 0 then [] else ToBe(x / 256, n - 1) + [x % 256]
  }

  lemma {:induction false} BeToBe(x: nat, n: nat)
    requires x < Pow2(8 * n)
    ensures Be(ToBe(x, n)) == x
  {
    if n > 0 {
      ShlByte(1, 8 * (n - 1));
      BeToBe(x / 256, n - 1);
      BeSnoc(ToBe(x / 256, n - 1), x % 256);
    }
  }

  lemma ToBeByte(x: nat, n: nat)
    ensures ToBe(x * 256, n + 1) == ToBe(x, n) + [0]
  {
  }

  /** Dropping low bytes of a number drops its last bytes. */
  lemma {:induction false} ToBeShifted(x: nat, n: nat, k: nat)
    ensures Shl(x, 8 * k) >= 0
    ensures ToBe(Shl(x, 8 * k), n + k)[..n] == ToBe(x, n)
  {
    ShlNat(x, 8 * k);
    if k > 0 {
      ToBeShifted(x, n, k - 1);
      ShlByte(x, 8 * (k - 1));
      ToBeByte(Shl(x, 8 * (k - 1)), n + (k - 1));
    }
  }

  /** The first k bits of data read as one number, zero bits past its end. */
  function Code(data: seq<Byte>, k: nat): int {
    if k <= 8 * |data| then Shr(Be(data), 8 * |data| - k)
    else Shl(Be(data), k - 8 * |data|)
  }

  lemma CodeNat(data: seq<Byte>, k: nat)
    ensures Code(data, k) >= 0
  {
    if k <= 8 * |data| {
      ShrNat(Be(data), 8 * |data| - k);
    } else {
      ShlNat(Be(data), k - 8 * |data|);
    }
  }

  /** Whole bytes of the code are the leading bytes of the data. */
  lemma CodeBytes(data: seq<Byte>, p: nat)
    requires p <= |data|
    ensures Code(data, 8 * p) == Be(data[..p])
  {
    assert data == data[..p] + data[p..];
    BeConcat(data[..p], data[p..]);
    BeBound(data[p..]);
    ShrSplit(Be(data[..p]), Be(data[p..]), 8 * |data[p..]|);
  }

  lemma CodeNextByte(data: seq<Byte>, p: nat)
    requires p < |data|
    ensures Code(data, 8 * (p + 1)) == 256 * Code(data, 8 * p) + data[p]
  {
    CodeBytes(data, p);
    CodeBytes(data, p + 1);
    assert data[..p + 1] == data[..p] + [data[p]];
    BeSnoc(data[..p], data[p]);
  }

  /** A longer prefix refines a shorter one. */
  lemma CodePrefix(data: seq<Byte>, k: nat, m: nat)
    ensures Code(data, k) == Shr(Code(data, k + m), m)
  {
    var n := 8 * |data|;
    var x := Be(data);
    if k + m <= n {
      ShrShr(x, n - k - m, m);
    } else if k <= n {
      ShrShl(x, n - k, k + m - n);
    } else {
      ShlShl(x, k - n, m);
      ShrShl(Shl(x, k - n), 0, m);
    }
  }
}
