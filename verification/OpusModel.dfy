// What both sides of the Opus range coder agree on, with unbounded precision
// (RFC 6716, sections 4.1 and 5.1): a packet is narrowed from both ends, by an
// interval of codes at its front and by raw bits at its back. The classes Enc
// and EcDec are proved against these definitions.

module OpusModel {
  import opened Bits

  const TOP := 0x8000_0000
  const BOT := 0x80_0000
  const WORD := 0x1_0000_0000

  /** The codes whose first t bits lie in [v, v + rng). */
  datatype Span = Span(v: nat, rng: nat, t: nat)

  /** All that has been said about a packet: its front lies in `span`, its last
      m bits are `raw`. */
  datatype Coder = Coder(span: Span, raw: nat, m: nat)

  const START: Coder := Coder(Span(0, TOP, 31), 0, 0)

  predicate Ok(c: Coder) {
    && BOT < c.span.rng <= TOP
    && c.raw < Pow2(c.m)
  }

  lemma StartOk()
    ensures Ok(START)
  {
    Pow2Values();
  }

  /** How far the packet's code is below the top of the interval. */
  function Dif(data: seq<Byte>, s: Span): int {
    s.v + s.rng - 1 - Code(data, s.t)
  }

  predicate Holds(data: seq<Byte>, s: Span) {
    0 <= Dif(data, s) < s.rng
  }

  predicate Fits(data: seq<Byte>, c: Coder) {
    Holds(data, c.span) && Low(Be(data), c.m) == c.raw
  }

  /** Renormalisation: whole bytes are added while the range is too small. */
  function Settle(s: Span): (r: Span)
    requires 0 < s.rng <= TOP
    ensures BOT < r.rng <= TOP
    decreases TOP - s.rng
  {
    if s.rng <= BOT then Settle(Finer(s)) else s
  }

  function Finer(s: Span): Span {
    Span(256 * s.v, 256 * s.rng, s.t + 8)
  }

  lemma FinerHolds(data: seq<Byte>, s: Span)
    ensures Holds(data, Finer(s)) <==> Holds(data, s)
  {
    var code := Code(data, s.t + 8);
    CodePrefix(data, s.t, 8);
    ShrLess(code, 8, s.v);
    ShrLess(code, 8, s.v + s.rng);
    ShlByte(s.v, 0);
    ShlByte(s.v + s.rng, 0);
  }

  lemma {:induction false} SettleHolds(data: seq<Byte>, s: Span)
    requires 0 < s.rng <= TOP
    ensures Holds(data, Settle(s)) <==> Holds(data, s)
    decreases TOP - s.rng
  {
    if s.rng <= BOT {
      SettleHolds(data, Finer(s));
      FinerHolds(data, s);
    }
  }

  /** Keep the part between the distances lo and hi from the top. */
  function Part(s: Span, hi: nat, lo: nat): Span
    requires lo < hi <= s.rng
  {
    Span(s.v + s.rng - hi, hi - lo, s.t)
  }

  function Cut(s: Span, hi: nat, lo: nat): Span
    requires s.rng <= TOP && lo < hi <= s.rng
  {
    Settle(Part(s, hi, lo))
  }

  lemma CutHolds(data: seq<Byte>, s: Span, hi: nat, lo: nat)
    requires s.rng <= TOP && lo < hi <= s.rng
    ensures Holds(data, Cut(s, hi, lo)) <==> lo <= Dif(data, s) < hi
  {
    SettleHolds(data, Part(s, hi, lo));
  }

  // ---- symbols: a table gives the frequency that lies above each symbol

  /** Non-increasing down to 0; the first symbol has some frequency. */
  predicate ValidTable(table: seq<nat>, ft: int) {
    && |table| > 0 && table[|table| - 1] == 0 && table[0] < ft
    && forall i, j :: 0 <= i <= j < |table| ==> table[j] <= table[i]
  }

  /** Symbol s has some frequency. */
  predicate Coded(table: seq<nat>, s: nat) {
    s < |table| && (s > 0 ==> table[s] < table[s - 1])
  }

  /** The frequency below symbol s. */
  function Below(table: seq<nat>, ft: nat, s: nat): nat
    requires ValidTable(table, ft) && s <= |table|
  {
    if s == 0 then 0 else ft - table[s - 1]
  }

  lemma BelowOrder(table: seq<nat>, ft: nat, j: nat, k: nat)
    requires ValidTable(table, ft) && j <= k <= |table|
    ensures Below(table, ft, j) <= Below(table, ft, k) <= ft
    ensures k == j + 1 && Coded(table, j) ==> Below(table, ft, j) < Below(table, ft, k)
  {
  }

  /** The distance from the top at which the frequencies from k on begin. */
  function Bound(rng: nat, r: nat, ft: nat, k: nat): nat
    requires k <= ft
  {
    if k == 0 then rng else Times(r, ft - k)
  }

  function Times(r: nat, k: nat): nat {
    MulNat(r, k);
    r * k
  }

  lemma MulNat(r: nat, k: nat)
    ensures r * k >= 0
  {
  }

  lemma TimesMono(r: nat, j: nat, k: nat)
    requires j <= k
    ensures Times(r, j) <= Times(r, k)
    ensures r > 0 && j < k ==> Times(r, j) < Times(r, k)
  {
    MulNat(r, k - j);
    assert r * k == r * j + r * (k - j);
    if r > 0 && j < k {
      assert r * (k - j) >= 1 * (k - j);
    }
  }

  lemma TimesSwap(a: nat, b: nat)
    ensures Times(a, b) == Times(b, a)
  {
  }

  lemma TimesSplit(r: nat, j: nat, k: nat)
    requires j <= k
    ensures Times(r, k - j) == Times(r, k) - Times(r, j)
  {
    assert r * (k - j) == r * k - r * j;
  }

  lemma BoundOrder(rng: nat, r: nat, ft: nat, j: nat, k: nat)
    requires r > 0 && Times(r, ft) <= rng && j < k <= ft
    ensures Bound(rng, r, ft, k) < Bound(rng, r, ft, j) <= rng
  {
    TimesMono(r, ft - k, ft - j);
    TimesMono(r, ft - j, ft);
  }

  /** Keep the part of the frequencies fl..fh out of ft. */
  function Taken(c: Coder, r: nat, ft: nat, fl: nat, fh: nat): Coder
    requires c.span.rng <= TOP && r > 0 && Times(r, ft) <= c.span.rng && fl < fh <= ft
  {
    BoundOrder(c.span.rng, r, ft, fl, fh);
    c.(span := Cut(c.span, Bound(c.span.rng, r, ft, fl), Bound(c.span.rng, r, ft, fh)))
  }

  lemma TakenFits(data: seq<Byte>, c: Coder, r: nat, ft: nat, fl: nat, fh: nat)
    requires c.span.rng <= TOP && r > 0 && Times(r, ft) <= c.span.rng && fl < fh <= ft
    requires Fits(data, Taken(c, r, ft, fl, fh))
    ensures Fits(data, c)
    ensures Bound(c.span.rng, r, ft, fh) <= Dif(data, c.span) < Bound(c.span.rng, r, ft, fl)
  {
    BoundOrder(c.span.rng, r, ft, fl, fh);
    CutHolds(data, c.span, Bound(c.span.rng, r, ft, fl), Bound(c.span.rng, r, ft, fh));
  }

  /** A packet meets at most one of two parts that do not overlap. */
  lemma TakenApart(data: seq<Byte>, c: Coder, r: nat, ft: nat, a: nat, b: nat, x: nat, y: nat)
    requires c.span.rng <= TOP && r > 0 && Times(r, ft) <= c.span.rng
    requires a < b <= x < y <= ft
    requires Fits(data, Taken(c, r, ft, a, b))
    ensures !Fits(data, Taken(c, r, ft, x, y))
  {
    TakenFits(data, c, r, ft, a, b);
    if b < x {
      BoundOrder(c.span.rng, r, ft, b, x);
    }
    if Fits(data, Taken(c, r, ft, x, y)) {
      TakenFits(data, c, r, ft, x, y);
    }
  }

  // ---- the calls: what is asked, then the answer

  datatype Op =
    | Freq(ft: nat, table: seq<nat>, s: nat)
    | Bin(ftb: nat, table: seq<nat>, s: nat)
    | Icdf(ftb: nat, table: seq<nat>, s: nat)
    | Bit(logp: nat, s: nat)
    | Raw(n: nat, x: nat)
    | Uint(ft: nat, x: nat)

  predicate SameAsk(a: Op, b: Op) {
    match (a, b)
    case (Freq(f, t, _), Freq(g, u, _)) => f == g && t == u
    case (Bin(f, t, _), Bin(g, u, _)) => f == g && t == u
    case (Icdf(f, t, _), Icdf(g, u, _)) => f == g && t == u
    case (Bit(f, _), Bit(g, _)) => f == g
    case (Raw(n, _), Raw(m, _)) => n == m
    case (Uint(f, _), Uint(g, _)) => f == g
    case _ => false
  }

  predicate ValidAsk(op: Op) {
    match op
    case Freq(ft, table, _) => ft <= BOT && ValidTable(table, ft)
    case Bin(ftb, table, _) => ftb <= 23 && ValidTable(table, Pow2(ftb))
    case Icdf(ftb, table, _) => ftb <= 23 && ValidTable(table, Pow2(ftb))
    case Bit(logp, _) => 1 <= logp <= 23
    case Raw(n, _) => n <= 25
    case Uint(ft, _) => 2 <= ft <= WORD
  }

  predicate ValidOp(op: Op) {
    && ValidAsk(op)
    && match op
       case Freq(_, table, s) => Coded(table, s)
       case Bin(_, table, s) => Coded(table, s)
       case Icdf(_, table, s) => Coded(table, s)
       case Bit(_, s) => s <= 1
       case Raw(n, x) => x < Pow2(n)
       case Uint(ft, x) => x < ft
  }

  /** ft equally likely symbols. */
  function Units(ft: nat): (table: seq<nat>)
    requires ft > 0
    ensures ValidTable(table, ft) && forall s :: 0 <= s < ft ==> Coded(table, s)
  {
    seq(ft, k requires 0 <= k < ft => ft - 1 - k)
  }

  lemma UnitBounds(ft: nat, x: nat)
    requires x < ft
    ensures Below(Units(ft), ft, x) == x && Below(Units(ft), ft, x + 1) == x + 1
  {
  }

  lemma RawNone(c: Coder)
    ensures RawStep(c, 0, 0) == c
  {
    ShlZero(c.m);
  }

  /** Dividing the range by a total that fits leaves a part for every unit. */
  lemma DivRatio(rng: nat, ft: nat)
    requires BOT < rng && 0 < ft <= BOT
    ensures rng / ft > 0 && Times(rng / ft, ft) <= rng
  {
    DivFloor(rng, ft);
  }

  lemma DivFloor(x: nat, d: nat)
    requires d > 0
    ensures Times(x / d, d) <= x < Times(x / d, d) + d
  {
    assert x == x / d * d + x % d;
  }

  lemma ShrRatio(rng: nat, b: nat)
    requires BOT < rng && b <= 23
    ensures Shr(rng, b) > 0 && Pow2(b) > 0 && Times(Shr(rng, b), Pow2(b)) <= rng
  {
    Pow2Mono(b, 23);
    Pow2Words();
    ShrLess(rng, b, 1);
    LowBounds(rng, b);
    TimesPow(Shr(rng, b), b);
  }

  lemma {:induction false} TimesPow(x: nat, b: nat)
    ensures Pow2(b) > 0 && Times(x, Pow2(b)) == Shl(x, b)
  {
    Pow2Pos(b);
    if b > 0 {
      TimesPow(x, b - 1);
      assert x * (2 * Pow2(b - 1)) == 2 * (x * Pow2(b - 1));
    }
  }

  function FreqTaken(c: Coder, ft: nat, fl: nat, fh: nat): Coder
    requires Ok(c) && fl < fh <= ft <= BOT
  {
    DivRatio(c.span.rng, ft);
    Taken(c, c.span.rng / ft, ft, fl, fh)
  }

  function ShiftTaken(c: Coder, b: nat, fl: nat, fh: nat): Coder
    requires Ok(c) && b <= 23 && fl < fh <= Pow2(b)
  {
    ShrRatio(c.span.rng, b);
    Taken(c, Shr(c.span.rng, b), Pow2(b), fl, fh)
  }

  function FreqStep(c: Coder, ft: nat, table: seq<nat>, s: nat): Coder
    requires Ok(c) && ft <= BOT && ValidTable(table, ft) && Coded(table, s)
  {
    BelowOrder(table, ft, s, s + 1);
    FreqTaken(c, ft, Below(table, ft, s), Below(table, ft, s + 1))
  }

  function ShiftStep(c: Coder, b: nat, table: seq<nat>, s: nat): Coder
    requires Ok(c) && b <= 23 && ValidTable(table, Pow2(b)) && Coded(table, s)
  {
    BelowOrder(table, Pow2(b), s, s + 1);
    ShiftTaken(c, b, Below(table, Pow2(b), s), Below(table, Pow2(b), s + 1))
  }

  /** A bit that is 1 once in 2^logp: the part next to the top. */
  function BitStep(c: Coder, logp: nat, s: nat): Coder
    requires Ok(c) && 1 <= logp <= 23
  {
    BitRatio(c.span.rng, logp);
    var r := Shr(c.span.rng, logp);
    c.(span := if s == 0 then Cut(c.span, c.span.rng, r) else Cut(c.span, r, 0))
  }

  lemma BitRatio(rng: nat, logp: nat)
    requires BOT < rng && 1 <= logp <= 23
    ensures 0 < Shr(rng, logp) < rng
  {
    ShrRatio(rng, logp);
    Pow2Mono(1, logp);
    TimesMono(Shr(rng, logp), 2, Pow2(logp));
  }

  function RawStep(c: Coder, n: nat, x: nat): Coder {
    ShlNat(x, c.m);
    Coder(c.span, c.raw + Shl(x, c.m), c.m + n)
  }

  /** An integer below ft: its eight high bits as a symbol, the rest raw. */
  function UintStep(c: Coder, ft: nat, x: nat): Coder
    requires Ok(c) && 2 <= ft <= WORD && x < ft
  {
    var b := Spill(ft);
    SpillBounds(ft, x);
    RawStep(FreqStep(c, HighCount(ft), Units(HighCount(ft)), Shr(x, b)), b, Low(x, b))
  }

  /** The raw bits of an integer below ft. */
  function Spill(ft: nat): nat
    requires ft >= 2
  {
    var b := BitLen(ft - 1);
    if b > 8 then b - 8 else 0
  }

  function HighCount(ft: nat): nat
    requires ft >= 2
  {
    ShrNat(ft - 1, Spill(ft));
    Shr(ft - 1, Spill(ft)) + 1
  }

  lemma SpillBounds(ft: nat, x: nat)
    requires 2 <= ft <= WORD && x < ft
    ensures Spill(ft) <= 24 && HighCount(ft) <= 256
    ensures 0 <= Shr(x, Spill(ft)) < HighCount(ft) && 0 <= Low(x, Spill(ft)) < Pow2(Spill(ft))
  {
    var b := Spill(ft);
    BitLenBounds(ft - 1);
    Pow2Words();
    Pow2Values();
    if BitLen(ft - 1) > 32 {
      Pow2Mono(32, BitLen(ft - 1) - 1);
    }
    if b == 0 {
      Pow2Mono(BitLen(ft - 1), 8);
    } else {
      Pow2Shl(8, b);
      ShrLess(ft - 1, b, 256);
      assert Shl(256, b) == Pow2(8 + b);
    }
    ShrNat(x, b);
    ShrOrder(x, ft - 1, b);
    LowBounds(x, b);
  }

  lemma {:induction false} ShrOrder(x: nat, y: nat, n: nat)
    requires x <= y
    ensures Shr(x, n) <= Shr(y, n)
  {
    if n > 0 {
      ShrOrder(x, y, n - 1);
    }
  }

  function Step(c: Coder, op: Op): Coder
    requires Ok(c) && ValidOp(op)
  {
    match op
    case Freq(ft, table, s) => FreqStep(c, ft, table, s)
    case Bin(ftb, table, s) => ShiftStep(c, ftb, table, s)
    case Icdf(ftb, table, s) => ShiftStep(c, ftb, table, s)
    case Bit(logp, s) => BitStep(c, logp, s)
    case Raw(n, x) => RawStep(c, n, x)
    case Uint(ft, x) => UintStep(c, ft, x)
  }

  lemma RawStepOk(c: Coder, n: nat, x: nat)
    requires Ok(c) && x < Pow2(n)
    ensures Ok(RawStep(c, n, x))
  {
    ShlStep(x, Pow2(n), c.m);
    Pow2Shl(n, c.m);
    assert n + c.m == c.m + n;
  }

  lemma StepOk(c: Coder, op: Op)
    requires Ok(c) && ValidOp(op)
    ensures Ok(Step(c, op))
  {
    if op.Raw? {
      RawStepOk(c, op.n, op.x);
    } else if op.Uint? {
      var b := Spill(op.ft);
      SpillBounds(op.ft, op.x);
      RawStepOk(FreqStep(c, HighCount(op.ft), Units(HighCount(op.ft)), Shr(op.x, b)), b, Low(op.x, b));
    }
  }

  // ---- every step only says more about the packet, and says it once

  lemma FreqUnique(data: seq<Byte>, c: Coder, ft: nat, table: seq<nat>, a: nat, b: nat)
    requires Ok(c) && ft <= BOT && ValidTable(table, ft) && Coded(table, a) && Coded(table, b)
    requires Fits(data, FreqStep(c, ft, table, a))
    ensures Fits(data, c)
    ensures Fits(data, FreqStep(c, ft, table, b)) ==> a == b
  {
    DivRatio(c.span.rng, ft);
    TakenUnique(data, c, c.span.rng / ft, ft, table, a, b);
  }

  lemma ShiftUnique(data: seq<Byte>, c: Coder, ftb: nat, table: seq<nat>, a: nat, b: nat)
    requires Ok(c) && ftb <= 23 && ValidTable(table, Pow2(ftb)) && Coded(table, a) && Coded(table, b)
    requires Fits(data, ShiftStep(c, ftb, table, a))
    ensures Fits(data, c)
    ensures Fits(data, ShiftStep(c, ftb, table, b)) ==> a == b
  {
    ShrRatio(c.span.rng, ftb);
    TakenUnique(data, c, Shr(c.span.rng, ftb), Pow2(ftb), table, a, b);
  }

  lemma TakenUnique(data: seq<Byte>, c: Coder, r: nat, ft: nat, table: seq<nat>, a: nat, b: nat)
    requires c.span.rng <= TOP && r > 0 && Times(r, ft) <= c.span.rng
    requires ValidTable(table, ft) && Coded(table, a) && Coded(table, b)
    ensures Below(table, ft, a) < Below(table, ft, a + 1) && Below(table, ft, b) < Below(table, ft, b + 1)
    ensures Fits(data, Taken(c, r, ft, Below(table, ft, a), Below(table, ft, a + 1))) ==> Fits(data, c)
    ensures (&& Fits(data, Taken(c, r, ft, Below(table, ft, a), Below(table, ft, a + 1)))
             && Fits(data, Taken(c, r, ft, Below(table, ft, b), Below(table, ft, b + 1)))) ==> a == b
  {
    BelowOrder(table, ft, a, a + 1);
    BelowOrder(table, ft, b, b + 1);
    if Fits(data, Taken(c, r, ft, Below(table, ft, a), Below(table, ft, a + 1))) {
      TakenFits(data, c, r, ft, Below(table, ft, a), Below(table, ft, a + 1));
      if a < b {
        BelowOrder(table, ft, a + 1, b);
        if Fits(data, Taken(c, r, ft, Below(table, ft, b), Below(table, ft, b + 1))) {
          TakenApart(data, c, r, ft, Below(table, ft, a), Below(table, ft, a + 1), Below(table, ft, b), Below(table, ft, b + 1));
        }
      } else if b < a && Fits(data, Taken(c, r, ft, Below(table, ft, b), Below(table, ft, b + 1))) {
        BelowOrder(table, ft, b + 1, a);
        TakenApart(data, c, r, ft, Below(table, ft, b), Below(table, ft, b + 1), Below(table, ft, a), Below(table, ft, a + 1));
      }
    }
  }

  lemma BitUnique(data: seq<Byte>, c: Coder, logp: nat, a: nat, b: nat)
    requires Ok(c) && 1 <= logp <= 23 && a <= 1 && b <= 1 && Fits(data, BitStep(c, logp, a))
    ensures Fits(data, c)
    ensures Fits(data, BitStep(c, logp, b)) ==> a == b
  {
    var rng, r := c.span.rng, Shr(c.span.rng, logp);
    BitRatio(rng, logp);
    CutHolds(data, c.span, rng, r);
    CutHolds(data, c.span, r, 0);
  }

  lemma RawUnique(data: seq<Byte>, c: Coder, n: nat, x: nat, y: nat)
    requires Ok(c) && x < Pow2(n) && y < Pow2(n) && Fits(data, RawStep(c, n, x))
    ensures Fits(data, c)
    ensures Fits(data, RawStep(c, n, y)) ==> x == y
  {
    LowSplit(Be(data), c.m, n, c.raw, x);
    ShlLess(x, y, c.m);
  }

  /** The low m + n bits split into the low m and the n above them. */
  lemma LowSplit(w: int, m: nat, n: nat, raw: nat, x: int)
    requires raw < Pow2(m)
    requires Low(w, m + n) == raw + Shl(x, m)
    ensures Low(w, m) == raw
  {
    var h := Shr(w, m + n);
    ShlShl(h, n, m);
    assert n + m == m + n;
    ShlSum(Shl(h, n), x, m);
    ShrSplit(Shl(h, n) + x, raw, m);
  }

  lemma UintUnique(data: seq<Byte>, c: Coder, ft: nat, x: nat, y: nat)
    requires Ok(c) && 2 <= ft <= WORD && x < ft && y < ft && Fits(data, UintStep(c, ft, x))
    ensures Fits(data, c)
    ensures Fits(data, UintStep(c, ft, y)) ==> x == y
  {
    var b, fs := Spill(ft), HighCount(ft);
    SpillBounds(ft, x);
    SpillBounds(ft, y);
    var cx := FreqStep(c, fs, Units(fs), Shr(x, b));
    var cy := FreqStep(c, fs, Units(fs), Shr(y, b));
    RawUnique(data, cx, b, Low(x, b), Low(x, b));
    FreqUnique(data, c, fs, Units(fs), Shr(x, b), Shr(x, b));
    if Fits(data, UintStep(c, ft, y)) {
      RawUnique(data, cy, b, Low(y, b), Low(y, b));
      FreqUnique(data, c, fs, Units(fs), Shr(x, b), Shr(y, b));
      RawUnique(data, cx, b, Low(x, b), Low(y, b));
    }
  }

  /** A packet that meets what a step says meets what was said before it, and
      meets it for that answer alone. */
  lemma StepUnique(data: seq<Byte>, c: Coder, a: Op, b: Op)
    requires Ok(c) && ValidOp(a) && ValidOp(b) && SameAsk(a, b) && Fits(data, Step(c, a))
    ensures Fits(data, c)
    ensures Fits(data, Step(c, b)) ==> a == b
  {
    match a
    case Freq(ft, table, s) => FreqUnique(data, c, ft, table, s, b.s);
    case Bin(ftb, table, s) => ShiftUnique(data, c, ftb, table, s, b.s);
    case Icdf(ftb, table, s) => ShiftUnique(data, c, ftb, table, s, b.s);
    case Bit(logp, s) => BitUnique(data, c, logp, s, b.s);
    case Raw(n, x) => RawUnique(data, c, n, x, b.x);
    case Uint(ft, x) => UintUnique(data, c, ft, x, b.x);
  }

  // ---- runs

  predicate ValidOps(ops: seq<Op>) {
    forall i :: 0 <= i < |ops| ==> ValidOp(ops[i])
  }

  predicate SameAsks(asks: seq<Op>, ops: seq<Op>) {
    |asks| == |ops| && forall i :: 0 <= i < |ops| ==> SameAsk(asks[i], ops[i])
  }

  function Run(c: Coder, ops: seq<Op>): (r: Coder)
    requires Ok(c) && ValidOps(ops)
    ensures Ok(r)
    decreases |ops|
  {
    if ops == [] then c
    else
      StepOk(c, ops[0]);
      Run(Step(c, ops[0]), ops[1..])
  }

  lemma {:induction false} RunFits(data: seq<Byte>, c: Coder, ops: seq<Op>)
    requires Ok(c) && ValidOps(ops) && Fits(data, Run(c, ops))
    ensures Fits(data, c)
    decreases |ops|
  {
    if ops != [] {
      StepOk(c, ops[0]);
      RunFits(data, Step(c, ops[0]), ops[1..]);
      StepUnique(data, c, ops[0], ops[0]);
    }
  }

  // ---- how much of the packet is spent

  const TELL_CORRECTION: seq<nat> := [35733, 38967, 42495, 46340, 50535, 55109, 60097, 65535]

  function Tell(total: int, rng: nat): int {
    total - BitLen(rng)
  }

  lemma RangeBits(rng: nat)
    requires BOT < rng <= TOP
    ensures 24 <= BitLen(rng) <= 32
    ensures 8 <= Shr(Shr(rng, BitLen(rng) - 16), 12) < 16
    ensures Shr(rng, BitLen(rng) - 16) >= 0
  {
    var b := BitLen(rng);
    BitLenBounds(rng);
    Pow2Words();
    if b < 24 {
      Pow2Mono(b, 23);
    } else if b > 32 {
      Pow2Mono(32, b - 1);
    }
    ShrNat(rng, b - 16);
    ShrShr(rng, b - 16, 12);
    Pow2Values();
    Pow2Shl(3, b - 4);
    Pow2Shl(4, b - 4);
    ShrLess(rng, b - 4, 8);
    ShrLess(rng, b - 4, 16);
  }

  /** The same in eighths of a bit. */
  function TellFrac(total: int, rng: nat): int
    requires BOT < rng <= TOP
  {
    RangeBits(rng);
    var r := Shr(rng, BitLen(rng) - 16);
    var b := Shr(r, 12) - 8;
    8 * total - (8 * BitLen(rng) + b + (if r > TELL_CORRECTION[b] then 1 else 0))
  }

  /** Both counts after a step: tell() and tell_frac(). */
  function Mark(c: Coder): (int, int)
    requires Ok(c)
  {
    var total := c.span.t + 2 + c.m;
    (Tell(total, c.span.rng), TellFrac(total, c.span.rng))
  }

  /** The counts after every call of a run. */
  function Marks(c: Coder, ops: seq<Op>): (r: seq<(int, int)>)
    requires Ok(c) && ValidOps(ops)
    ensures |r| == |ops|
    decreases |ops|
  {
    if ops == [] then []
    else
      StepOk(c, ops[0]);
      [Mark(Step(c, ops[0]))] + Marks(Step(c, ops[0]), ops[1..])
  }
}
