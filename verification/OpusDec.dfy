// The Opus range decoder as it runs: a 32-bit window filled a byte at a time
// from the front, and a window of raw bits filled from the back.

module OpusDecoder {
  import opened Bits
  import opened OpusModel

  // ---- what the bytes say, zero bits past either end

  lemma CodeNext(data: seq<Byte>, j: nat)
    ensures Code(data, 8 * (j + 1)) == 256 * Code(data, 8 * j) + (if j < |data| then data[j] else 0)
  {
    if j < |data| {
      CodeNextByte(data, j);
    } else {
      ShlByte(Be(data), 8 * j - 8 * |data|);
    }
  }

  lemma CodeFirst(data: seq<Byte>, j: nat)
    requires j == 0
    ensures Code(data, 8 * j) == 0
  {
    CodeBytes(data, j);
  }

  lemma CodeHalf(data: seq<Byte>, j: nat, t: nat)
    requires t + 1 == 8 * j
    ensures Code(data, t) == Code(data, 8 * j) / 2
  {
    CodePrefix(data, t, 1);
  }

  /** The byte that lies j bytes from the end. */
  lemma EndByteAt(data: seq<Byte>, j: nat)
    ensures Low(Shr(Be(data), 8 * j), 8) == if j < |data| then data[|data| - 1 - j] else 0
  {
    if j < |data| {
      var n := |data| - j;
      var head, b, tail := data[..n - 1], data[n - 1], data[n..];
      assert data == (head + [b]) + tail;
      BeConcat(head + [b], tail);
      BeBound(tail);
      ShrSplit(Be(head + [b]), Be(tail), 8 * j);
      LastByte(head, b);
    } else {
      PastEnd(data, 8 * j);
    }
  }

  lemma LastByte(head: seq<Byte>, b: Byte)
    ensures Low(Be(head + [b]), 8) == b
  {
    BeSnoc(head, b);
    ShlByte(Be(head), 0);
    Pow2Values();
    ShrSplit(Be(head), b, 8);
  }

  lemma PastEnd(data: seq<Byte>, n: nat)
    requires n >= 8 * |data|
    ensures Low(Shr(Be(data), n), 8) == 0
  {
    BeBound(data);
    Pow2Mono(8 * |data|, n);
    LowSmall(Be(data), n);
    Pow2Values();
    LowSmall(0, 8);
  }

  /** The n bits of x from bit m on. */
  ghost function Field(x: int, m: nat, n: nat): int {
    if n == 0 then 0 else Low(Shr(x, m), n)
  }

  lemma FieldLow(x: int, m: nat, n: nat)
    ensures Field(x, m, n) == Low(Shr(x, m), n) && 0 <= Field(x, m, n) < Pow2(n)
  {
    LowBounds(Shr(x, m), n);
  }

  lemma LowJoin(x: int, a: nat, b: nat)
    ensures Low(x, a + b) == Low(x, a) + Shl(Low(Shr(x, a), b), a)
  {
    var q := Shr(x, a);
    ShrShr(x, a, b);
    ShlShl(Shr(q, b), b, a);
    assert b + a == a + b;
    ShlSum(Shl(Shr(q, b), b), Low(q, b), a);
  }

  /** Taking n bits off the bottom of a window. */
  lemma LowTake(x: int, a: nat, n: nat)
    requires n <= a
    ensures Low(Low(x, a), n) == Low(x, n)
    ensures Shr(Low(x, a), n) == Low(Shr(x, n), a - n)
  {
    LowJoin(x, n, a - n);
    assert n + (a - n) == a;
    LowBounds(x, n);
    ShrSplit(Low(Shr(x, n), a - n), Low(x, n), n);
  }

  class EcDec {
    const buf: seq<Byte>
    var endOffs: nat
    var endWindow: nat
    var nendBits: nat
    var nbitsTotal: nat
    var offs: nat
    var rng: nat
    var rem: nat
    var val: nat
    var error: nat
    var readErr: bool
    var frontPast: nat
    var endPast: nat
    var ext: nat
    ghost var coder: Coder

    ghost predicate FrontAt(j: nat)
      reads this
    {
      && offs + frontPast == j && offs <= |buf| && (frontPast > 0 ==> offs == |buf|)
      && j > 0 && rem < 256 && Code(buf, 8 * j) == 256 * Code(buf, 8 * (j - 1)) + rem
    }

    ghost predicate BackAt(window: nat, available: nat)
      reads this
    {
      && endOffs <= |buf| && (endPast > 0 ==> endOffs == |buf|)
      && coder.m + available == 8 * (endOffs + endPast)
      && window == Field(Be(buf), coder.m, available)
    }

    ghost predicate CoreWith(window: nat, available: nat)
      reads this
    {
      && 0 < rng <= TOP && rng == coder.span.rng
      && val == Dif(buf, coder.span) && val < rng
      && nbitsTotal == coder.span.t + 2 + coder.m
      && coder.span.t + 1 == 8 * (offs + frontPast) && FrontAt(offs + frontPast)
      && coder.raw == Field(Be(buf), 0, coder.m)
      && (readErr <==> frontPast + endPast > 0)
      && available <= 32 && BackAt(window, available)
    }

    ghost predicate Core()
      reads this
    {
      CoreWith(endWindow, nendBits)
    }

    /** The decoder's packet always meets what the decoder has read. */
    ghost predicate Valid()
      reads this
      ensures Valid() ==> Ok(coder) && Fits(buf, coder)
    {
      FieldLow(Be(buf), 0, coder.m);
      Core() && BOT < rng
    }

    constructor (data: seq<Byte>)
      ensures Valid() && buf == data && coder == START && error == 0
    {
      buf := data;
      endOffs, endWindow, nendBits := 0, 0, 0;
      nbitsTotal := 9;
      offs, rng, rem, val, ext, error := 0, 128, 0, 0, 0, 0;
      readErr, frontPast, endPast := false, 0, 0;
      coder := Coder(Span(0, 128, 7), 0, 0);
      new;
      First(0);
      SettleStart();
      Norm();
    }

    /** Takes in the first seven bits. */
    method First(ghost j: nat)
      requires offs == frontPast == j == 0 && (readErr <==> endPast > 0)
      requires rng == 128 && coder.span.v == 0 && coder.span.rng == 128 && coder.span.t + 1 == 8 * (j + 1)
      requires nbitsTotal == coder.span.t + 2 + coder.m && coder.raw == Field(Be(buf), 0, coder.m)
      requires nendBits <= 32 && BackAt(endWindow, nendBits)
      modifies this`offs, this`readErr, this`frontPast, this`rem, this`val
      ensures Core()
    {
      CodeFirst(buf, j);
      rem := Read();
      CodeHalf(buf, j + 1, coder.span.t);
      val := (rng - 1 - rem / 2) % WORD;
      assert FrontAt(j + 1);
    }

    method Read() returns (b: Byte)
      requires offs <= |buf| && (frontPast > 0 ==> offs == |buf|) && (readErr <==> frontPast + endPast > 0)
      modifies this`offs, this`readErr, this`frontPast
      ensures offs <= |buf| && (frontPast > 0 ==> offs == |buf|) && (readErr <==> frontPast + endPast > 0)
      ensures offs + frontPast == old(offs + frontPast) + 1
      ensures Code(buf, 8 * (offs + frontPast)) == 256 * Code(buf, 8 * old(offs + frontPast)) + b
    {
      CodeNext(buf, offs + frontPast);
      if offs >= |buf| {
        readErr := true;
        frontPast := frontPast + 1;
        return 0;
      }
      b := buf[offs];
      offs := offs + 1;
    }

    method ReadEnd() returns (b: Byte)
      requires endOffs <= |buf| && (endPast > 0 ==> endOffs == |buf|) && (readErr <==> frontPast + endPast > 0)
      modifies this`endOffs, this`readErr, this`endPast
      ensures endOffs <= |buf| && (endPast > 0 ==> endOffs == |buf|) && (readErr <==> frontPast + endPast > 0)
      ensures endOffs + endPast == old(endOffs + endPast) + 1
      ensures b == Low(Shr(Be(buf), 8 * old(endOffs + endPast)), 8)
    {
      EndByteAt(buf, endOffs + endPast);
      if endOffs >= |buf| {
        readErr := true;
        endPast := endPast + 1;
        return 0;
      }
      endOffs := endOffs + 1;
      b := buf[|buf| - endOffs];
    }

    method Norm()
      requires Core()
      modifies this
      ensures Valid()
      ensures coder == old(coder).(span := Settle(old(coder.span)))
      ensures error == old(error)
    {
      while rng <= BOT
        invariant Core()
        invariant Settle(coder.span) == Settle(old(coder.span))
        invariant coder == old(coder).(span := coder.span)
        invariant error == old(error)
        decreases TOP - rng
      {
        Shift();
      }
    }

    /** Takes in eight bits more. */
    method ShiftIn(ghost t: nat, ghost j: nat, ghost v: nat)
      requires t + 1 == 8 * j && offs + frontPast == j && FrontAt(j) && (readErr <==> frontPast + endPast > 0)
      requires val < rng <= BOT && val == v + rng - 1 - Code(buf, t)
      modifies this`offs, this`readErr, this`frontPast, this`rem, this`val
      ensures FrontAt(j + 1) && (readErr <==> frontPast + endPast > 0)
      ensures val == 256 * v + 256 * rng - 1 - Code(buf, t + 8) && val < 256 * rng
    {
      var sym := rem;
      rem := Read();
      CodeHalf(buf, j, t);
      CodeHalf(buf, j + 1, t + 8);
      ShiftedDif(sym, rem, Code(buf, 8 * (j - 1)), val, rng);
      sym := Or(256 * sym, rem) / 2;
      val := ((val * 256) % WORD + (255 - sym % 256)) % TOP;
    }

    method Shift()
      requires Core() && rng <= BOT
      modifies this
      ensures Core() && rng == 256 * old(rng)
      ensures coder == old(coder).(span := Finer(old(coder.span)))
      ensures error == old(error)
    {
      ghost var j := offs + frontPast;
      nbitsTotal := nbitsTotal + 8;
      ShiftIn(coder.span.t, j, coder.span.v);
      rng := (rng * 256) % WORD;
      coder := coder.(span := Finer(coder.span));
      assert BackAt(endWindow, nendBits) && FrontAt(offs + frontPast);
    }

    /** Keeps the part of the interval between two distances, then renormalises. */
    method Narrow(newVal: nat, newRng: nat, ghost hi: nat, ghost lo: nat)
      requires Valid() && lo <= val < hi <= rng && newVal == val - lo && newRng == hi - lo
      modifies this
      ensures Valid() && error == old(error)
      ensures coder == old(coder).(span := Cut(old(coder.span), hi, lo))
    {
      val := newVal;
      rng := newRng;
      coder := coder.(span := Part(coder.span, hi, lo));
      Norm();
    }

    /** The frequency, out of ft, that the code points at. */
    method Decode(ft: nat) returns (k: nat)
      requires Valid()
      modifies this`ext, this`error
      ensures Valid() && ext == if ft == 0 then 0 else rng / ft
      ensures ext == 0 ==> error == 1 && k == 0
      ensures ext > 0 ==> error == old(error) && PointsAt(ext, ft, k)
    {
      ext := if ft != 0 then rng / ft else 0;
      if ext == 0 {
        error := 1;
        return 0;
      }
      DivFloor(rng, ft);
      Pointed(val, rng, ext, ft);
      var s := val / ext;
      k := ft - (if s + 1 < ft then s + 1 else ft);
    }

    method DecodeBin(ftb: nat) returns (k: nat)
      requires Valid() && ftb <= 23
      modifies this`ext
      ensures Valid() && ext == Shr(rng, ftb) && ext > 0 && Pow2(ftb) > 0 && PointsAt(ext, Pow2(ftb), k)
    {
      ShrRatio(rng, ftb);
      ext := Shr(rng, ftb);
      var ft := Pow2(ftb);
      Pointed(val, rng, ext, ft);
      var s := val / ext;
      k := ft - (if s + 1 < ft then s + 1 else ft);
    }

    predicate PointsAt(r: nat, ft: nat, k: nat)
      reads this
    {
      k < ft && Bound(rng, r, ft, k + 1) <= val < Bound(rng, r, ft, k)
    }

    /** Takes the part fl..fh out of ft, which must be where the code points. */
    method Update(fl: nat, fh: nat, ft: nat)
      requires Valid() && ext > 0 && Times(ext, ft) <= rng && fl < fh <= ft
      requires Bound(rng, ext, ft, fh) <= val < Bound(rng, ext, ft, fl)
      modifies this
      ensures Valid() && error == old(error)
      ensures coder == Taken(old(coder), old(ext), ft, fl, fh)
    {
      ghost var hi, lo := SpanParts(val, rng, ext, ft, fl, fh);
      var s := (ext * (ft - fh)) % WORD;
      if fl > 0 {
        Narrow((val - s) % WORD, (ext * (fh - fl)) % WORD, hi, lo);
      } else {
        Narrow((val - s) % WORD, (rng - s) % WORD, hi, lo);
      }
    }

    method BitLogp(logp: nat) returns (bit: nat)
      requires Valid() && 1 <= logp <= 23
      modifies this
      ensures Valid() && error == old(error)
      ensures bit <= 1 && coder == BitStep(old(coder), logp, bit)
    {
      BitRatio(rng, logp);
      var s := Shr(rng, logp);
      bit := if val < s then 1 else 0;
      if bit == 0 {
        Narrow((val - s) % WORD, (rng - s) % WORD, rng, s);
      } else {
        Narrow(val, s, s, 0);
      }
    }

    method Icdf(table: seq<nat>, ftb: nat) returns (sym: nat)
      requires Valid() && ftb <= 23 && ValidTable(table, Pow2(ftb))
      modifies this
      ensures Valid() && error == old(error)
      ensures Coded(table, sym) && coder == ShiftStep(old(coder), ftb, table, sym)
    {
      ShrRatio(rng, ftb);
      var t, s;
      sym, t, s := Search(table, ftb, Shr(rng, ftb));
      ShiftCut(coder, ftb, table, sym, t, s);
      SmallWord(val - s);
      SmallWord(t - s);
      Narrow((val - s) % WORD, (t - s) % WORD, t, s);
    }

    /** The first symbol whose part reaches down to the code. */
    method Search(table: seq<nat>, ftb: nat, r: nat) returns (sym: nat, t: nat, s: nat)
      requires Valid() && ftb <= 23 && ValidTable(table, Pow2(ftb))
      requires r > 0 && Pow2(ftb) > 0 && Times(r, Pow2(ftb)) <= rng
      ensures Coded(table, sym) && s <= val < t <= rng
      ensures t == Bound(rng, r, Pow2(ftb), Below(table, Pow2(ftb), sym))
      ensures s == Bound(rng, r, Pow2(ftb), Below(table, Pow2(ftb), sym + 1))
    {
      var ft := Pow2(ftb);
      var ret := -1;
      s := rng;
      while true
        invariant -1 <= ret < |table| - 1 && val < s <= rng
        invariant s == Bound(rng, r, ft, Below(table, ft, ret + 1))
        decreases |table| - ret
      {
        t := s;
        ret := ret + 1;
        NextBound(rng, r, ft, table, ret);
        s := (r * table[ret]) % WORD;
        if val >= s {
          break;
        }
      }
      sym := ret;
    }

    /** Fills a window until it holds more than 24 bits. */
    method Fill(window0: nat, available0: nat) returns (window: nat, available: nat)
      requires CoreWith(window0, available0) && BOT < rng && available0 <= 24
      modifies this`endOffs, this`readErr, this`endPast
      ensures CoreWith(window, available) && 24 < available
    {
      window, available := window0, available0;
      while true
        invariant CoreWith(window, available) && available <= 24
        decreases 32 - available
      {
        FieldLow(Be(buf), coder.m, available);
        var b := ReadEnd();
        FieldGrows(Be(buf), coder.m, available, b);
        ShlNat(b, available);
        window := Or(window, Shl(b, available) % WORD) % WORD;
        available := available + 8;
        if available > 24 {
          break;
        }
      }
    }

    method Bits(n: nat) returns (ret: nat)
      requires Valid() && n <= 25
      modifies this
      ensures Valid() && error == old(error)
      ensures ret < Pow2(n) && coder == RawStep(old(coder), n, ret)
    {
      var window, available := endWindow, nendBits;
      if available < n {
        window, available := Fill(window, available);
      }
      ret := Spend(window, available, n);
    }

    /** Takes n bits off a window, and keeps the rest. */
    method Spend(window0: nat, available: nat, n: nat) returns (ret: nat)
      requires CoreWith(window0, available) && BOT < rng && n <= available
      modifies this`endWindow, this`nendBits, this`nbitsTotal, this`coder
      ensures Valid()
      ensures ret < Pow2(n) && coder == RawStep(old(coder), n, ret)
    {
      FieldTake(Be(buf), coder.m, available, n);
      ret := if n != 0 then Low(window0, n) else 0;
      var window := if n != 0 then Shr(window0, n) % WORD else window0;
      endWindow := window;
      nendBits := available - n;
      nbitsTotal := nbitsTotal + n;
      coder := RawStep(coder, n, ret);
    }

    /** An integer below ft. A code that points past the last one is an error. */
    method Uint(ft: nat) returns (x: nat, ghost hi: nat, ghost lo: nat)
      requires Valid() && ft <= WORD
      modifies this
      ensures Valid()
      ensures ft <= 1 ==> error == 1 && x == 0 && coder == old(coder)
      ensures ft > 1 ==> var b := Spill(ft);
        && hi < HighCount(ft) <= 256 && lo < Pow2(b)
        && coder == RawStep(FreqStep(old(coder), HighCount(ft), Units(HighCount(ft)), hi), b, lo)
        && x == UintAnswer(ft, hi, lo)
        && error == (if Joined(ft, hi, lo) < ft then old(error) else 1)
    {
      hi, lo := 0, 0;
      if ft <= 1 {
        error := 1;
        return 0, hi, lo;
      }
      var top := ft - 1;
      var ftb := BitLen(top);
      SpillBounds(ft, top);
      ghost var c := coder;
      if ftb > 8 {
        x, hi, lo := WideUint(ft, ftb - 8);
        return x, hi, lo;
      }
      SmallTop(ft);
      x := Unit(ft);
      hi := x;
      NoSpill(coder, ft, x);
    }

    /** The same when some of the bits are raw. */
    method WideUint(ft: nat, ftb: nat) returns (x: nat, ghost hi: nat, ghost lo: nat)
      requires Valid() && 2 <= ft <= WORD && ftb == Spill(ft) > 0
      modifies this
      ensures Valid()
      ensures hi < HighCount(ft) <= 256 && lo < Pow2(ftb)
      ensures coder == RawStep(FreqStep(old(coder), HighCount(ft), Units(HighCount(ft)), hi), ftb, lo)
      ensures x == UintAnswer(ft, hi, lo)
      ensures error == (if Joined(ft, hi, lo) < ft then old(error) else 1)
    {
      var s, low := SplitUint(ft, ftb);
      hi, lo := s, low;
      JoinBits(ft, s, low);
      x := Or(Shl(s, ftb), low) % WORD;
      if x > ft - 1 {
        Fail();
        x := ft - 1;
      }
    }

    method Fail()
      requires Valid()
      modifies this`error
      ensures Valid() && error == 1
    {
      error := 1;
    }

    method SplitUint(ft: nat, ftb: nat) returns (s: nat, low: nat)
      requires Valid() && 2 <= ft <= WORD && ftb == Spill(ft)
      modifies this
      ensures Valid() && error == old(error)
      ensures s < HighCount(ft) <= 256 && low < Pow2(ftb)
      ensures coder == RawStep(FreqStep(old(coder), HighCount(ft), Units(HighCount(ft)), s), ftb, low)
    {
      SpillBounds(ft, ft - 1);
      var fs := Shr(ft - 1, ftb) + 1;
      s := Unit(fs);
      low := Bits(ftb);
    }

    /** One of fs equally likely symbols. */
    method Unit(fs: nat) returns (s: nat)
      requires Valid() && 0 < fs <= 256
      modifies this
      ensures Valid() && error == old(error) && s < fs
      ensures coder == FreqStep(old(coder), fs, Units(fs), s)
    {
      DivRatio(rng, fs);
      s := Decode(fs);
      UnitBounds(fs, s);
      Update(s, s + 1, fs);
    }

    function Tell(): int
      reads this
    {
      OpusModel.Tell(nbitsTotal, rng)
    }

    function TellFrac(): int
      requires BOT < rng <= TOP
      reads this
    {
      OpusModel.TellFrac(nbitsTotal, rng)
    }
  }

  function Joined(ft: nat, hi: nat, lo: nat): nat
    requires ft >= 2
  {
    ShlNat(hi, Spill(ft));
    Shl(hi, Spill(ft)) + lo
  }

  function UintAnswer(ft: nat, hi: nat, lo: nat): nat
    requires ft >= 2
  {
    if Joined(ft, hi, lo) < ft then Joined(ft, hi, lo) else ft - 1
  }

  lemma Pointed(val: nat, rng: nat, r: nat, ft: nat)
    requires r > 0 && ft > 0 && Times(r, ft) <= rng && val < rng
    ensures var s := val / r;
      var k := ft - (if s + 1 < ft then s + 1 else ft);
      0 <= k < ft && Bound(rng, r, ft, k + 1) <= val < Bound(rng, r, ft, k)
  {
    var s := val / r;
    DivFloor(val, r);
    TimesSwap(s, r);
    TimesSwap(s + 1, r);
    assert Times(s + 1, r) == Times(s, r) + r;
    if s + 1 >= ft {
      TimesMono(r, ft - 1, s);
    }
  }

  lemma FieldGrows(x: int, m: nat, n: nat, b: Byte)
    requires n <= 24 && b == Low(Shr(x, m + n), 8)
    ensures Shl(b, n) >= 0 && Field(x, m, n) >= 0
    ensures Or(Field(x, m, n), Shl(b, n) % WORD) % WORD == Field(x, m, n + 8)
  {
    FieldLow(x, m, n);
    ShrShr(x, m, n);
    LowJoin(Shr(x, m), n, 8);
    FieldLow(x, m, n + 8);
    OrWord(Field(x, m, n), b, n, Field(x, m, n + 8));
  }

  lemma OrWord(w: nat, b: Byte, n: nat, sum: nat)
    requires n <= 24 && w < Pow2(n) && sum == w + Shl(b, n) < Pow2(n + 8)
    ensures Shl(b, n) >= 0
    ensures Or(w, Shl(b, n) % WORD) % WORD == sum
  {
    ShlNat(b, n);
    Pow2Words();
    Pow2Mono(n + 8, 32);
    SmallWord(Shl(b, n));
    SmallWord(sum);
    OrSum(b, w, n);
  }

  lemma FieldTake(x: int, m: nat, a: nat, n: nat)
    requires n <= a <= 32
    ensures 0 <= (if n != 0 then Low(Field(x, m, a), n) else 0) < Pow2(n)
    ensures n != 0 ==> Shr(Field(x, m, a), n) % WORD == Field(x, m + n, a - n)
    ensures Field(x, 0, m) + Shl(if n != 0 then Low(Field(x, m, a), n) else 0, m) == Field(x, 0, m + n)
  {
    if n == 0 {
      Pow2Values();
      ShlZero(m);
    } else {
      FieldLow(x, m, a);
      FieldLow(x, 0, m);
      FieldRest(x, m, a, n);
      LowTake(Shr(x, m), a, n);
      LowBounds(Shr(x, m), n);
      LowJoin(x, m, n);
    }
  }

  lemma FieldRest(x: int, m: nat, a: nat, n: nat)
    requires n <= a <= 32
    ensures Shr(Low(Shr(x, m), a), n) % WORD == Field(x, m + n, a - n)
  {
    LowTake(Shr(x, m), a, n);
    ShrShr(x, m, n);
    FieldLow(x, m + n, a - n);
    Pow2Words();
    Pow2Mono(a - n, 32);
    SmallWord(Field(x, m + n, a - n));
  }

  lemma JoinBits(ft: nat, hi: nat, lo: nat)
    requires 2 <= ft <= WORD && hi < HighCount(ft) && lo < Pow2(Spill(ft))
    ensures Shl(hi, Spill(ft)) >= 0
    ensures Or(Shl(hi, Spill(ft)), lo) % WORD == Joined(ft, hi, lo)
  {
    var b := Spill(ft);
    SpillBounds(ft, ft - 1);
    OrSum(hi, lo, b);
    ShlStep(hi, 256, b);
    Pow2Values();
    Pow2Shl(8, b);
    Pow2Words();
    Pow2Mono(8 + b, 32);
    SmallWord(Joined(ft, hi, lo));
  }

  lemma NoSpill(c: Coder, ft: nat, x: nat)
    requires ft >= 2 && Spill(ft) == 0
    ensures HighCount(ft) == ft && Joined(ft, x, 0) == x && 0 < Pow2(Spill(ft))
    ensures RawStep(c, Spill(ft), 0) == c
  {
    ShlZero(c.m);
    Pow2Pos(Spill(ft));
  }

  lemma SmallTop(ft: nat)
    requires ft >= 2 && BitLen(ft - 1) <= 8
    ensures ft <= 256
  {
    BitLenBounds(ft - 1);
    Pow2Values();
    Pow2Mono(BitLen(ft - 1), 8);
  }

  lemma SmallWord(x: nat)
    requires x < WORD
    ensures x % WORD == x
  {
  }


  lemma SpanParts(val: nat, rng: nat, r: nat, ft: nat, fl: nat, fh: nat) returns (hi: nat, lo: nat)
    requires 0 < rng <= TOP && r > 0 && Times(r, ft) <= rng && fl < fh <= ft
    requires Bound(rng, r, ft, fh) <= val < Bound(rng, r, ft, fl)
    ensures hi == Bound(rng, r, ft, fl) && lo == Bound(rng, r, ft, fh) && lo < hi <= rng
    ensures (r * (ft - fh)) % WORD == lo && (val - lo) % WORD == val - lo
    ensures (if fl > 0 then (r * (fh - fl)) % WORD else (rng - lo) % WORD) == hi - lo
  {
    hi, lo := Bound(rng, r, ft, fl), Bound(rng, r, ft, fh);
    BoundOrder(rng, r, ft, fl, fh);
    TimesSplit(r, ft - fh, ft - fl);
    assert ft - fl - (ft - fh) == fh - fl;
  }

  lemma ShiftCut(c: Coder, ftb: nat, table: seq<nat>, s: nat, hi: nat, lo: nat)
    requires Ok(c) && ftb <= 23 && ValidTable(table, Pow2(ftb)) && Coded(table, s) && lo < hi <= c.span.rng
    requires Pow2(ftb) > 0 && Shr(c.span.rng, ftb) > 0
    requires hi == Bound(c.span.rng, Shr(c.span.rng, ftb), Pow2(ftb), Below(table, Pow2(ftb), s))
    requires lo == Bound(c.span.rng, Shr(c.span.rng, ftb), Pow2(ftb), Below(table, Pow2(ftb), s + 1))
    ensures ShiftStep(c, ftb, table, s) == c.(span := Cut(c.span, hi, lo))
  {
  }

  lemma NextBound(rng: nat, r: nat, ft: nat, table: seq<nat>, k: nat)
    requires 0 < rng <= TOP && r > 0 && Times(r, ft) <= rng && ValidTable(table, ft) && k < |table|
    ensures 0 <= r * table[k] == (r * table[k]) % WORD == Bound(rng, r, ft, Below(table, ft, k + 1)) <= rng
    ensures k == |table| - 1 ==> r * table[k] == 0
    ensures k > 0 && r * table[k] < Bound(rng, r, ft, Below(table, ft, k)) ==> Coded(table, k)
  {
    TimesMono(r, table[k], ft);
    assert Times(r, table[k]) == r * table[k];
  }

  lemma SettleStart()
    ensures Settle(Span(0, 128, 7)) == Span(0, TOP, 31)
  {
    var a := Span(0, 0x8000, 15);
    var b := Span(0, 0x80_0000, 23);
    assert Settle(b) == Settle(Span(0, TOP, 31)) == Span(0, TOP, 31);
    assert Settle(a) == Settle(b);
  }

  /** One byte more of code, as the window takes it in: seven of its bits and one
      of the byte before. */
  lemma ShiftedDif(sym: Byte, b: Byte, code: int, val: nat, rng: nat)
    requires val < rng <= BOT
    ensures Or(256 * sym, b) == 256 * sym + b
    ensures var s := (256 * sym + b) / 2;
      var step := (256 * (256 * code + sym) + b) / 2 - 256 * ((256 * code + sym) / 2);
      && ((val * 256) % WORD + (255 - s % 256)) % TOP == 256 * val + 255 - step
      && 0 <= step < 256
  {
    OrByte(sym, b);
    HalfByte(sym, b);
    HalfCode(code, sym, b);
    NoWrap(val, 128 * (sym % 2) + b / 2);
  }

  lemma NoWrap(val: nat, s: nat)
    requires val < BOT && s < 256
    ensures ((val * 256) % WORD + (255 - s)) % TOP == 256 * val + 255 - s
  {
    assert (val * 256) % WORD == val * 256;
  }

  lemma OrByte(sym: Byte, b: Byte)
    ensures Or(256 * sym, b) == 256 * sym + b
  {
    Pow2Values();
    ShlByte(sym, 0);
    OrSum(sym, b, 8);
  }

  lemma HalfByte(sym: Byte, b: Byte)
    ensures (256 * sym + b) / 2 % 256 == 128 * (sym % 2) + b / 2
  {
    assert (256 * sym + b) / 2 == 128 * sym + b / 2;
    assert 128 * sym + b / 2 == 256 * (sym / 2) + (128 * (sym % 2) + b / 2);
  }

  lemma HalfCode(code: int, sym: Byte, b: Byte)
    ensures (256 * (256 * code + sym) + b) / 2 - 256 * ((256 * code + sym) / 2) == 128 * (sym % 2) + b / 2
  {
    assert (256 * (256 * code + sym) + b) / 2 == 128 * (256 * code + sym) + b / 2;
    assert (256 * code + sym) / 2 == 128 * code + sym / 2;
  }
}
