// The AV1 range encoder (zown/av1enc.py): a 64-bit window of pending bits, an
// output buffer that later carries may still change, and the flush in `Done`.

module MsacEncoder {
  import opened Bits
  import opened MsacModel

  lemma SeqAssoc(a: seq<Byte>, b: seq<Byte>, c: seq<Byte>)
    ensures (a + b) + c == a + (b + c)
  {
  }

  lemma SetLast(h: seq<Byte>, d: seq<Byte>, r: seq<Byte>, b: Byte)
    requires |h| > 0
    ensures (h + d + r)[|h| - 1] == h[|h| - 1]
    ensures (h + d + r)[|h| - 1 := b] == h[..|h| - 1] + ([b] + d) + r
  {
  }

  lemma IncLast(s: seq<Byte>)
    requires |s| > 0
    ensures var n := |s| - 1;
      Inc(s) == (if s[n] == 255 then Inc(s[..n]) else s[..n]) + [Next(s[n])]
  {
  }

  function Next(b: Byte): Byte {
    if b == 255 then 0 else b + 1
  }

  class MsacEnc {
    var buf: seq<Byte>
    var offs: nat
    var low: nat
    var rng: nat
    var cnt: int

    /** Every bit coded so far: the bytes written, then the window. */
    function Value(): nat
      reads this
      requires offs <= |buf| && cnt >= -24
    {
      ShlNat(Be(buf[..offs]), 24 + cnt);
      Shl(Be(buf[..offs]), 24 + cnt) + low
    }

    function View(): Interval
      reads this
      requires offs <= |buf| && cnt >= -24 && 8 * offs + cnt + 9 >= 0
    {
      Interval(Value(), rng, 8 * offs + cnt + 9)
    }

    /** The window holds at most one carry bit above its 24 + cnt bits. */
    ghost predicate Valid()
      reads this
    {
      && offs <= |buf| && -9 <= cnt < 40 && 8 * offs + cnt + 9 >= 0
      && Ok(View())
      && low + rng <= Pow2(25 + cnt)
    }

    constructor ()
      ensures Valid() && View() == START
    {
      buf, offs, low, rng, cnt := [], 0, 0, 0x8000, -9;
      new;
      Pow2Values();
      ShlZero(15);
      assert buf[..offs] == [];
    }

    /** Adds one to the number written in buf[..at + 1], from the last byte up.
        A carry out of the first byte is dropped. */
    method Carry(at: int)
      requires -1 <= at < |buf|
      modifies this`buf
      ensures buf == Inc(old(buf)[..at + 1]) + old(buf)[at + 1..]
    {
      var carry := 1;
      var i := at;
      ghost var head: seq<Byte>, done: seq<Byte> := buf[..at + 1], [];
      ghost var rest := buf[at + 1..];
      assert buf == head + done + rest;
      while carry != 0
        invariant -1 <= i <= at && 0 <= carry <= 1 && |head| == i + 1
        invariant buf == head + done + rest
        invariant Inc(old(buf)[..at + 1]) == (if carry == 1 then Inc(head) else head) + done
        decreases i + 1
      {
        if i < 0 {
          break;
        }
        var total: nat := buf[i] as nat + 1;
        SetLast(head, done, rest, Next(head[i]));
        IncLast(head);
        SeqAssoc(if head[i] == 255 then Inc(head[..i]) else head[..i], [Next(head[i])], done);
        carry := total / 256;
        buf := buf[i := total % 256];
        head, done := head[..i], [Next(head[i])] + done;
        i := i - 1;
      }
    }

    /** Appends the num low bytes of output, after any carry into what is there. */
    method Write(output: nat, carry: nat, num: nat)
      requires offs <= |buf| && 1 <= num <= 8 && output < Pow2(8 * num)
      modifies this`buf, this`offs
      ensures offs == old(offs) + num && offs <= |buf|
      ensures buf[..offs] == Carried(old(buf)[..old(offs)], carry) + ToBe(output, num)
    {
      LowBounds(Shl(output, 8 * (8 - num)), 64);
      var raw := ToBe(Low(Shl(output, 8 * (8 - num)), 64), 8);
      var end := offs + 8;
      if |buf| < end {
        buf := buf + seq(end - |buf|, _ => 0);
      }
      ghost var head: seq<Byte>, rest: seq<Byte> := buf[..offs], buf[end..];
      assert head == old(buf)[..offs];
      buf := buf[..offs] + raw + buf[end..];
      Splice(head, raw, rest);
      if carry != 0 {
        Carry(offs - 1);
      }
      Splice(Carried(head, carry), raw, rest);
      PrefixOf(Carried(head, carry), raw, rest, num);
      TopBytes(output, num);
      offs := offs + num;
    }

    /** Makes [low0, low0 + rng0) the current interval and renormalises, writing
        six or seven bytes when the window is full. */
    method Norm(low0: nat, rng0: nat)
      requires Valid() && low <= low0 && 0 < rng0 && low0 + rng0 <= low + rng
      modifies this
      ensures Valid()
      ensures View() == Narrow(old(View()), low0 - old(low), rng0)
    {
      ghost var v := View().v + (low0 - low);
      NarrowOk(View(), low0 - low, rng0);
      var c := cnt;
      var d := Lift(rng0);
      var s := c + d;
      var lo := low0;
      if s >= 40 {
        var num := s / 8 + 1;
        c := c + 24 - 8 * num;
        FlushReady(buf[..offs], low0, rng0, cnt, d, v, 15 + View().t);
        var output := Shr(lo, c);
        lo := Low(lo, c);
        var carry := Shr(output, 8 * num) % 2;
        output := Low(output, 8 * num);
        Write(output, carry, num);
        s := c + d - 24;
      } else {
        ShiftReady(buf[..offs], low0, rng0, low + rng, c, d, v);
      }
      low := Low(Shl(lo, d), 64);
      rng := Shl(rng0, d);
      cnt := s;
    }

    /** One bit whose probability of being 1 is f / 32768; nothing adapts. */
    method Bool(bit: nat, f: nat)
      requires Valid() && f < 32768
      modifies this
      ensures Valid()
      ensures View() == Coded(old(View()), BitCdf(f), if bit == 0 then 0 else 1)
    {
      var r := rng;
      CutDescends(r, BitCdf(f), 0);
      CutDescends(r, BitCdf(f), 1);
      var v := BoolCut(r, f) + 4;
      var lo := low;
      if bit != 0 {
        lo := lo + (r - v);
        r := v;
      } else {
        r := r - v;
      }
      Norm(lo, r);
    }

    method Equi(bit: nat)
      requires Valid()
      modifies this
      ensures Valid()
      ensures View() == Coded(old(View()), BitCdf(16384), if bit == 0 then 0 else 1)
    {
      Bool(bit, 16384);
    }

    /** An adaptive bit: one symbol of a distribution with n = 1. */
    method AdaptBool(cdf: array<nat>, bit: nat)
      requires Valid() && cdf.Length == 2 && ValidCdf(cdf[..]) && bit < 2
      modifies this, cdf
      ensures Valid()
      ensures View() == Coded(old(View()), old(cdf[..]), bit)
      ensures cdf[..] == Adapted(old(cdf[..]), bit)
    {
      SameBit(View(), cdf[..], bit);
      Bool(bit, cdf[0]);
      AdaptBit(cdf, bit);
    }

    /** Symbol s of a distribution over 0..n, which then adapts. */
    method Symbol(cdf: array<nat>, n: nat, s: nat)
      requires Valid() && cdf.Length == n + 1 && ValidCdf(cdf[..]) && s <= n
      modifies this, cdf
      ensures Valid()
      ensures View() == Coded(old(View()), old(cdf[..]), s)
      ensures cdf[..] == Adapted(old(cdf[..]), s)
    {
      var fl := if s == 0 then 32768 else cdf[s - 1];
      var fh := cdf[s];
      var r := rng;
      var lo := low;
      CutDescends(r, cdf[..], s);
      CutAt(r, cdf[..], s);
      if fl < 32768 {
        var u := BoolCut(r, fl) + 4 * (n - (s - 1));
        var v := BoolCut(r, fh) + 4 * (n - s);
        lo := lo + (r - u);
        r := u - v;
      } else {
        r := r - (BoolCut(r, fh) + 4 * (n - s));
      }
      ghost var iv, was := View(), cdf[..];
      assert lo - low == iv.rng - Cut(iv.rng, was, s - 1);
      assert r == Cut(iv.rng, was, s - 1) - Cut(iv.rng, was, s);
      Norm(lo, r);
      assert View() == Coded(iv, was, s);
      Adapt(cdf, n, s);
    }

    /** Appends the low byte of val, after carrying its ninth bit. */
    method PutByte(val: nat)
      requires offs <= |buf|
      modifies this`buf, this`offs
      ensures offs == old(offs) + 1 && offs <= |buf|
      ensures buf[..offs] == Carried(old(buf)[..old(offs)], (val / 256) % 2) + [val % 256]
    {
      ghost var head := buf[..offs];
      if |buf| <= offs {
        buf := buf + [0];
      }
      buf := buf[offs := val % 256];
      ghost var rest := buf[offs..];
      assert buf == head + rest;
      if (val / 256) % 2 != 0 {
        Carry(offs - 1);
      }
      assert buf == Carried(head, (val / 256) % 2) + rest;
      PrefixSnoc(Carried(head, (val / 256) % 2), rest);
      offs := offs + 1;
    }

    /** The flush: enough bytes that the code lies in the interval. */
    method Done() returns (data: seq<Byte>)
      requires Valid()
      modifies this`buf, this`offs
      ensures Holds(data, old(View()))
      ensures old(View()).t < 8 * |data| <= old(View()).t + 8
    {
      ghost var iv := View();
      var c := cnt;
      var s := 10 + c;
      var q := (low + 0x3fff) / 0x4000;
      ghost var g := if q % 2 == 0 then q + 1 else q;
      var e: int := (if q % 2 == 0 then q + 1 else q) * 0x4000;
      DoneStart(low, rng, c, g);
      ghost var total: nat := iv.v + (e - low);
      while s > 0
        invariant s == 10 + c && -17 <= c && offs <= |buf|
        invariant 8 * offs + c + 9 == iv.t
        invariant Flushing(buf[..offs], e, g, c, total)
        decreases s
      {
        FlushStep(buf[..offs], e, g, c, total, 15 + iv.t);
        PutByte(Low(Shr(e, c + 16), 16));
        g := Kept(g, c + 16);
        e := Low(e, c + 16);
        s := s - 8;
        c := c - 8;
      }
      data := buf[..offs];
      DoneEnd(data, e, g, c, total, iv);
    }
  }

  lemma CutAt(r: nat, cdf: seq<nat>, s: nat)
    requires ValidCdf(cdf) && s < |cdf|
    ensures var n := |cdf| - 1;
      && Cut(r, cdf, s) == BoolCut(r, cdf[s]) + 4 * (n - s)
      && Cut(r, cdf, s - 1)
         == if s == 0 then r else BoolCut(r, cdf[s - 1]) + 4 * (n - (s - 1))
    ensures s > 0 ==> cdf[s - 1] < 32768
  {
  }

  /** The value to flush: an odd multiple of 2^14 inside the interval. */
  lemma DoneStart(low: nat, rng: nat, c: int, g: int)
    requires rng >= 0x8000 && -9 <= c < 40 && low + rng <= Pow2(25 + c)
    requires var q := (low + 0x3fff) / 0x4000; g == if q % 2 == 0 then q + 1 else q
    ensures g * 0x4000 == Shl(g, 14)
    ensures low <= g * 0x4000 < low + rng
  {
    assert Shl(g, 14) == 2 * Shl(g, 13) == 4 * Shl(g, 12) == 8 * Shl(g, 11) == 16 * Shl(g, 10);
    assert Shl(g, 10) == 2 * Shl(g, 9) == 4 * Shl(g, 8);
    assert Shl(g, 0 + 8) == 256 * Shl(g, 0) by { ShlByte(g, 0); }
  }

  ghost function Kept(g: int, k: nat): int {
    if k >= 14 then Low(g, k - 14) else 0
  }

  lemma KeepMultiple(g: int, k: nat)
    ensures Low(Shl(g, 14), k) == Shl(Kept(g, k), 14)
    ensures Pow2(k) <= Pow2(k + 1)
  {
    LowMultiple(g, 14, k);
    ShlZero(14);
    Pow2Mono(k, k + 1);
  }

  /** The bytes written and the pending value e, an odd multiple of 2^14 at
      first and a multiple of it throughout, still make up the same code. */
  ghost predicate Flushing(b: seq<Byte>, e: int, g: int, c: int, total: int)
    requires c >= -17
  {
    && 0 <= e < Pow2(25 + c) && (c < -9 ==> e < Pow2(24 + c))
    && e == Shl(g, 14)
    && Shl(Be(b), 24 + c) + e == total
  }

  lemma FlushStep(b: seq<Byte>, e: int, g: int, c: int, total: nat, t: nat)
    requires -9 <= c && Flushing(b, e, g, c, total)
    requires total < Pow2(t) && t == 8 * |b| + c + 24
    ensures var val := Low(Shr(e, c + 16), 16);
      && 0 <= val < 512
      && Flushing(Carried(b, (val / 256) % 2) + [val % 256], Low(e, c + 16), Kept(g, c + 16), c - 8, total)
  {
    assert c + 16 + 8 + 1 == 25 + c && c + 16 + 8 == 24 + c;
    FlushByte(b, e, c + 16, total, t);
    KeepMultiple(g, c + 16);
    assert 25 + (c - 8) == c + 16 + 1 && 24 + (c - 8) == c + 16;
  }

  lemma DoneEnd(data: seq<Byte>, e: int, g: int, c: int, total: int, iv: Interval)
    requires -17 <= c <= -10 && Flushing(data, e, g, c, total)
    requires iv.v <= total < iv.v + iv.rng && 8 * |data| + c + 9 == iv.t
    ensures Holds(data, iv)
  {
    Pow2Mono(24 + c, 14);
    ShlLess(g, 1, 14);
    ShlZero(14);
    ShlLess(g, 0, 14);
    assert 15 + iv.t - 8 * |data| == 24 + c;
  }

  /** One byte of the flush, with the carry its ninth bit holds. */
  lemma FlushByte(b: seq<Byte>, e: int, c: nat, v: nat, t: nat)
    requires 0 <= e < Pow2(c + 8 + 1) && v == Shl(Be(b), c + 8) + e
    requires v < Pow2(t) && t == 8 * |b| + c + 8
    ensures var val := Low(Shr(e, c), 16);
      && 0 <= val < 512
      && v == Shl(Be(Carried(b, (val / 256) % 2) + [val % 256]), c) + Low(e, c)
      && 0 <= Low(e, c) < Pow2(c)
  {
    FlushValue(b, e, c, 1, v, t);
    CarryBit(e, c, 8);
    LowBounds(e, c);
    NinthBit(Shr(e, c));
    var val := Low(Shr(e, c), 16);
    assert Carried(b, Shr(val, 8)) + ToBe(Low(val, 8), 1) == Carried(b, (val / 256) % 2) + [val % 256];
  }

  lemma NinthBit(val: int)
    requires 0 <= Shr(val, 8) <= 1
    ensures 0 <= val < 512 && Low(val, 16) == val
    ensures Shr(val, 8) == val / 256 == (val / 256) % 2
    ensures Low(val, 8) == val % 256 && ToBe(Low(val, 8), 1) == [val % 256]
  {
    LowBounds(val, 8);
    ShlByte(Shr(val, 8), 0);
    Pow2Values();
    LowSmall(val, 16);
    OneByte(Low(val, 8));
  }

  lemma OneByte(b: nat)
    requires b < 256
    ensures ToBe(b, 1) == [b]
  {
    assert ToBe(b, 1) == ToBe(b / 256, 0) + [b % 256];
  }

  lemma Splice(h: seq<Byte>, d: seq<Byte>, r: seq<Byte>)
    ensures (h + d + r)[..|h|] == h && (h + d + r)[|h|..] == d + r
    ensures h + d + r == h + (d + r)
  {
  }

  lemma PrefixOf(h: seq<Byte>, d: seq<Byte>, r: seq<Byte>, n: nat)
    requires n <= |d|
    ensures (h + d + r)[..|h| + n] == h + d[..n]
  {
  }

  lemma PrefixSnoc(h: seq<Byte>, r: seq<Byte>)
    requires |r| > 0
    ensures (h + r)[..|h| + 1] == h + [r[0]]
  {
  }

  lemma TopBytes(output: nat, num: nat)
    requires 1 <= num <= 8 && output < Pow2(8 * num)
    ensures Low(Shl(output, 8 * (8 - num)), 64) >= 0
    ensures ToBe(Low(Shl(output, 8 * (8 - num)), 64), 8)[..num] == ToBe(output, num)
  {
    var m := 8 * (8 - num);
    ShlNat(output, m);
    ShlLess(output, Pow2(8 * num), m);
    Pow2Shl(8 * num, m);
    LowSmall(Shl(output, m), 64);
    ToBeShifted(output, num, 8 - num);
  }

  /** The window may be shifted by d into 24 + s bits, and the value is kept. */
  ghost predicate Ready(b: seq<Byte>, lo: int, rng: nat, d: nat, s: int, v: nat) {
    && lo >= 0 && -9 <= s < 40
    && Shl(v, d) == Shl(Be(b), 24 + s) + Shl(lo, d)
    && Shl(lo, d) + Shl(rng, d) <= Pow2(25 + s)
    && 0 <= Low(Shl(lo, d), 64) == Shl(lo, d)
  }

  lemma FlushReady(b: seq<Byte>, low: nat, rng: nat, cnt: int, d: nat, v: nat, t: nat)
    requires cnt < 40 <= cnt + d && d < 16 && Shl(rng, d) < 0x10000 && low < Pow2(25 + cnt)
    requires v == Shl(Be(b), 24 + cnt) + low && v < Pow2(t) && t == 8 * |b| + 24 + cnt
    ensures var num := (cnt + d) / 8 + 1;
      && var c := cnt + 24 - 8 * num;
      && c >= 0 && 1 <= num <= 8
      && var output := Shr(low, c);
      && 0 <= Shr(output, 8 * num) <= 1
      && 0 <= Low(output, 8 * num) < Pow2(8 * num)
      && Ready(Carried(b, Shr(output, 8 * num)) + ToBe(Low(output, 8 * num), num),
               Low(low, c), rng, d, c + d - 24, v)
  {
    var num := (cnt + d) / 8 + 1;
    var c := cnt + 24 - 8 * num;
    var output := Shr(low, c);
    FlushValue(b, low, c, num, v, t);
    Rescale(Carried(b, Shr(output, 8 * num)) + ToBe(Low(output, 8 * num), num), Low(low, c), c, d, v);
    LowBounds(low, c);
    ShlNat(rng, d);
    FlushFits(Low(low, c), Shl(rng, d), c, d);
  }

  lemma ShiftReady(b: seq<Byte>, low: nat, rng: nat, top: nat, cnt: int, d: nat, v: nat)
    requires -9 <= cnt && cnt + d < 40 && low + rng <= top <= Pow2(25 + cnt) && rng > 0
    requires v == Shl(Be(b), 24 + cnt) + low
    ensures Ready(b, low, rng, d, cnt + d, v)
  {
    Rescale(b, low, 24 + cnt, d, v);
    ShiftFits(low, rng, top, cnt, d);
  }

  /** Splitting a full window into a carry, num bytes and what stays keeps the value. */
  lemma FlushValue(b: seq<Byte>, low: nat, c: nat, num: nat, v: nat, t: nat)
    requires 1 <= num && low < Pow2(c + 8 * num + 1)
    requires v == Shl(Be(b), c + 8 * num) + low && v < Pow2(t) && t == 8 * |b| + c + 8 * num
    ensures var output := Shr(low, c);
      && var carry, bytes := Shr(output, 8 * num), Low(output, 8 * num);
      && 0 <= carry <= 1 && 0 <= bytes < Pow2(8 * num)
      && v == Shl(Be(Carried(b, carry) + ToBe(bytes, num)), c) + Low(low, c)
  {
    var output := Shr(low, c);
    var carry, bytes := Shr(output, 8 * num), Low(output, 8 * num);
    FlushSum(b, low, c, 8 * num, v, t);
    CarriedValue(b, carry);
    JoinBytes(Carried(b, carry), bytes, num);
  }

  lemma JoinBytes(x: seq<Byte>, bytes: nat, num: nat)
    requires bytes < Pow2(8 * num)
    ensures Be(x + ToBe(bytes, num)) == Shl(Be(x), 8 * num) + bytes
  {
    BeToBe(bytes, num);
    BeConcat(x, ToBe(bytes, num));
  }

  lemma FlushSum(b: seq<Byte>, low: nat, c: nat, m: nat, v: nat, t: nat)
    requires low < Pow2(c + m + 1)
    requires v == Shl(Be(b), c + m) + low && v < Pow2(t) && t == 8 * |b| + c + m
    ensures var output := Shr(low, c);
      && var carry, bytes := Shr(output, m), Low(output, m);
      && 0 <= carry <= 1 && 0 <= bytes < Pow2(m) && Be(b) + carry < Pow2(8 * |b|)
      && v == Shl(Shl(Be(b) + carry, m) + bytes, c) + Low(low, c)
  {
    var output := Shr(low, c);
    var carry, bytes := Shr(output, m), Low(output, m);
    CarryBit(low, c, m);
    LowBounds(output, m);
    LowBounds(low, c);
    RegroupValue(Be(b), carry, bytes, c, m);
    NoOverflow(Be(b) + carry, |b|, m, c, bytes, v, t);
  }

  lemma CarryBit(low: nat, c: nat, m: nat)
    requires low < Pow2(c + m + 1)
    ensures 0 <= Shr(Shr(low, c), m) <= 1
  {
    ShrShr(low, c, m);
    ShrNat(low, c + m);
    ShrLess(low, c + m, 2);
    ShlDouble(1, c + m);
  }

  lemma RegroupValue(b: nat, carry: int, bytes: int, c: nat, m: nat)
    ensures Shl(b, c + m) + Shl(Shl(carry, m) + bytes, c) == Shl(Shl(b + carry, m) + bytes, c)
  {
    ShlSum(b, carry, m);
    ShlShl(b, m, c);
    ShlSum(Shl(b, m), Shl(carry, m) + bytes, c);
  }

  lemma NoOverflow(x: nat, n: nat, m: nat, c: nat, y: nat, v: nat, t: nat)
    requires v < Pow2(t) && t == 8 * n + c + m && Shl(Shl(x, m) + y, c) <= v
    ensures x < Pow2(8 * n)
  {
    ShlSum(Shl(x, m), y, c);
    ShlNat(y, c);
    ShlShl(x, m, c);
    Pow2Shl(8 * n, m + c);
    assert t == 8 * n + (m + c);
    ShlLess(x, Pow2(8 * n), m + c);
  }

  lemma Rescale(b: seq<Byte>, lo: int, c: nat, d: nat, v: nat)
    requires v == Shl(Be(b), c) + lo
    ensures Shl(v, d) == Shl(Be(b), c + d) + Shl(lo, d)
  {
    ShlSum(Shl(Be(b), c), lo, d);
    ShlShl(Be(b), c, d);
  }

  /** After a flush the window is short: shifting it keeps room for a carry. */
  lemma FlushFits(lo: nat, rng: nat, c: nat, d: nat)
    requires lo < Pow2(c) && rng < 0x10000 && 16 <= c + d <= 23
    ensures Shl(lo, d) + rng <= Pow2(c + d + 1)
    ensures 0 <= Low(Shl(lo, d), 64) == Shl(lo, d)
  {
    ShlNat(lo, d);
    ShlLess(lo, Pow2(c), d);
    Pow2Shl(c, d);
    Pow2Values();
    Pow2Mono(16, c + d);
    Pow2Mono(c + d + 1, 64);
    LowSmall(Shl(lo, d), 64);
  }

  lemma ShiftFits(low: nat, rng: nat, top: nat, c: int, d: nat)
    requires -9 <= c && c + d < 40 && low + rng <= top <= Pow2(25 + c) && rng > 0
    ensures Shl(low, d) + Shl(rng, d) <= Pow2(25 + c + d)
    ensures 0 <= Low(Shl(low, d), 64) == Shl(low, d)
  {
    ShlSum(low, rng, d);
    ShlLess(Pow2(25 + c), low + rng, d);
    Pow2Shl(25 + c, d);
    Pow2Mono(25 + c + d, 64);
    ShlNat(rng, d);
    ShlNat(low, d);
    LowSmall(Shl(low, d), 64);
  }

  function Carried(s: seq<Byte>, carry: nat): (r: seq<Byte>)
    ensures |r| == |s|
  {
    if carry == 0 then s else Inc(s)
  }

  lemma CarriedValue(head: seq<Byte>, carry: nat)
    requires carry <= 1 && Be(head) + carry < Pow2(8 * |head|)
    ensures Be(Carried(head, carry)) == Be(head) + carry
  {
    if carry == 1 {
      BeInc(head);
    }
  }
}
