// What both sides of the AV1 range coder agree on, with unbounded precision:
// the interval of codes still possible, how one symbol narrows it, and how a
// distribution adapts (AV1 Bitstream & Decoding Process Specification, section
// 8.2). MsacEnc and Msac are proved against these definitions.

module MsacModel {
  import opened Bits

  /** The codes whose first 15 + t bits lie in [v, v + rng). */
  datatype Interval = Interval(v: nat, rng: nat, t: nat)

  ghost predicate Ok(iv: Interval) {
    && 0x8000 <= iv.rng < 0x10000
    && iv.v + iv.rng <= Pow2(15 + iv.t)
  }

  const START: Interval := Interval(0, 0x8000, 0)

  lemma StartOk()
    ensures Ok(START)
  {
    Pow2Values();
  }

  /** Does a number of 15 + t bits lie in the interval? */
  ghost predicate Within(x: int, iv: Interval) {
    iv.v <= x < iv.v + iv.rng
  }

  /** Does a byte string, zero bits past its end, lie in the interval? */
  ghost predicate Holds(data: seq<Byte>, iv: Interval) {
    Within(Code(data, 15 + iv.t), iv)
  }

  /** The shift that brings a range of 1..0xffff back to sixteen bits. */
  function Lift(rng: nat): (d: nat)
    requires 0 < rng < 0x10000
    ensures d < 16
    ensures 0x8000 <= Shl(rng, d) < 0x10000
  {
    LiftBounds(rng);
    16 - BitLen(rng)
  }

  lemma LiftBounds(rng: nat)
    requires 0 < rng < 0x10000
    ensures 1 <= BitLen(rng) <= 16
    ensures 0x8000 <= Shl(rng, 16 - BitLen(rng)) < 0x10000
  {
    BitLenBounds(rng);
    Pow2Values();
    if BitLen(rng) > 16 {
      Pow2Mono(16, BitLen(rng) - 1);
    }
    LiftTo(rng, BitLen(rng), 16 - BitLen(rng));
  }

  lemma LiftTo(x: nat, b: nat, d: nat)
    requires b >= 1 && Pow2(b - 1) <= x < Pow2(b)
    ensures Pow2(b + d - 1) <= Shl(x, d) < Pow2(b + d)
  {
    ShlLess(x, Pow2(b - 1), d);
    ShlLess(x, Pow2(b), d);
    Pow2Shl(b - 1, d);
    Pow2Shl(b, d);
  }

  /** Keep the part of size `size` that starts `off` into the interval. */
  function Narrow(iv: Interval, off: nat, size: nat): Interval
    requires 0 < size < 0x10000
  {
    var d := Lift(size);
    ShlNat(iv.v + off, d);
    Interval(Shl(iv.v + off, d), Shl(size, d), iv.t + d)
  }

  lemma NarrowOk(iv: Interval, off: nat, size: nat)
    requires Ok(iv) && 0 < size && off + size <= iv.rng
    ensures Ok(Narrow(iv, off, size))
  {
    var d := Lift(size);
    ShlSum(iv.v + off, size, d);
    ShlLess(Pow2(15 + iv.t), iv.v + off + size, d);
    Pow2Shl(15 + iv.t, d);
    assert 15 + (iv.t + d) == 15 + iv.t + d;
  }

  /** A number is in the narrowed interval exactly when its prefix was in that part. */
  lemma NarrowWithin(x: int, y: int, iv: Interval, off: nat, size: nat)
    requires 0 < size < 0x10000 && x == Shr(y, Lift(size))
    ensures Within(y, Narrow(iv, off, size)) <==> iv.v + off <= x < iv.v + off + size
  {
    var d := Lift(size);
    ShlSum(iv.v + off, size, d);
    ShrLess(y, d, iv.v + off);
    ShrLess(y, d, iv.v + off + size);
  }

  /** A code is in the narrowed interval exactly when it was in that part. */
  lemma NarrowHolds(data: seq<Byte>, iv: Interval, off: nat, size: nat)
    requires 0 < size < 0x10000
    ensures Holds(data, Narrow(iv, off, size))
       <==> iv.v + off <= Code(data, 15 + iv.t) < iv.v + off + size
  {
    var d := Lift(size);
    CodePrefix(data, 15 + iv.t, d);
    assert 15 + (iv.t + d) == 15 + iv.t + d;
    NarrowWithin(Code(data, 15 + iv.t), Code(data, 15 + iv.t + d), iv, off, size);
  }

  // ---- distributions: n Q15 values, non-increasing, then a count

  ghost predicate ValidCdf(cdf: seq<nat>) {
    var n := |cdf| - 1;
    && 1 <= n <= 15
    && cdf[n] <= 32
    && (forall i :: 0 <= i < n ==> cdf[i] < 32768)
    && (forall i, j :: 0 <= i <= j < n ==> cdf[j] <= cdf[i])
  }

  /** The distance of a boundary from the top of a range; Cut(-1) is the range. */
  function Cut(rng: nat, cdf: seq<nat>, k: int): (u: nat)
    requires -1 <= k < |cdf|
  {
    if k < 0 then rng else BoolCut(rng, cdf[k]) + 4 * (|cdf| - 1 - k)
  }

  function BoolCut(rng: nat, f: nat): nat {
    MulNat(rng / 256, f / 64);
    ((rng / 256) * (f / 64)) / 2
  }

  lemma MulNat(a: nat, b: nat)
    ensures a * b >= 0
  {
  }

  lemma MulMono(d: nat, a: nat, b: nat)
    requires a <= b
    ensures d * a <= d * b
  {
  }

  lemma BoolCutBounds(rng: nat, f: nat, g: nat)
    requires rng < 0x10000 && g <= f < 32768
    ensures BoolCut(rng, g) <= BoolCut(rng, f)
    ensures 512 * BoolCut(rng, f) <= 511 * rng
    ensures f < 64 ==> BoolCut(rng, f) == 0
  {
    MulMono(rng / 256, g / 64, f / 64);
    MulMono(rng / 256, f / 64, 511);
  }

  /** Boundaries strictly descend to 0: every symbol keeps a positive range. */
  lemma CutDescends(rng: nat, cdf: seq<nat>, k: nat)
    requires 0x8000 <= rng < 0x10000 && ValidCdf(cdf) && k < |cdf|
    ensures Cut(rng, cdf, k) < Cut(rng, cdf, k - 1)
    ensures k == |cdf| - 1 ==> Cut(rng, cdf, k) == 0
    ensures Cut(rng, cdf, k - 1) <= rng
  {
    var n := |cdf| - 1;
    if k < n {
      BoolCutBounds(rng, cdf[k], cdf[k]);
    } else {
      BoolCutBounds(rng, cdf[k], cdf[k]);
    }
    if k > 0 {
      BoolCutBounds(rng, cdf[k - 1], cdf[k - 1]);
      if k < n {
        BoolCutBounds(rng, cdf[k - 1], cdf[k]);
      }
    }
  }

  /** The interval after coding symbol s. */
  function Coded(iv: Interval, cdf: seq<nat>, s: nat): Interval
    requires Ok(iv) && ValidCdf(cdf) && s < |cdf|
  {
    CutDescends(iv.rng, cdf, s);
    Narrow(iv, iv.rng - Cut(iv.rng, cdf, s - 1), Cut(iv.rng, cdf, s - 1) - Cut(iv.rng, cdf, s))
  }

  lemma CodedOk(iv: Interval, cdf: seq<nat>, s: nat)
    requires Ok(iv) && ValidCdf(cdf) && s < |cdf|
    ensures Ok(Coded(iv, cdf, s))
  {
    CutDescends(iv.rng, cdf, s);
    NarrowOk(iv, iv.rng - Cut(iv.rng, cdf, s - 1), Cut(iv.rng, cdf, s - 1) - Cut(iv.rng, cdf, s));
  }

  /** The first boundary from k on that c has reached. */
  function Find(rng: nat, cdf: seq<nat>, c: nat, k: nat): (s: nat)
    requires 0x8000 <= rng < 0x10000 && ValidCdf(cdf) && k < |cdf|
    ensures k <= s < |cdf| && Cut(rng, cdf, s) <= c
    ensures s > k ==> c < Cut(rng, cdf, s - 1)
    decreases |cdf| - k
  {
    CutDescends(rng, cdf, k);
    if c >= Cut(rng, cdf, k) then k else Find(rng, cdf, c, k + 1)
  }

  function BitCdf(f: nat): (cdf: seq<nat>)
    requires f < 32768
    ensures ValidCdf(cdf)
  {
    [f, 0]
  }

  /** The symbol that a number in the interval stands for. */
  function Picked(x: int, iv: Interval, cdf: seq<nat>): (s: nat)
    requires Ok(iv) && ValidCdf(cdf) && Within(x, iv)
    ensures s < |cdf|
  {
    Find(iv.rng, cdf, iv.v + iv.rng - 1 - x, 0)
  }

  /** The symbol that a code in the interval stands for. */
  function Decoded(data: seq<Byte>, iv: Interval, cdf: seq<nat>): (s: nat)
    requires Ok(iv) && ValidCdf(cdf) && Holds(data, iv)
    ensures s < |cdf|
  {
    Picked(Code(data, 15 + iv.t), iv, cdf)
  }

  lemma {:induction false} CutOrder(rng: nat, cdf: seq<nat>, j: int, k: int)
    requires 0x8000 <= rng < 0x10000 && ValidCdf(cdf) && -1 <= j <= k < |cdf|
    ensures Cut(rng, cdf, k) <= Cut(rng, cdf, j)
    decreases k - j
  {
    if j < k {
      CutDescends(rng, cdf, k);
      CutOrder(rng, cdf, j, k - 1);
    }
  }

  /** A number stands for s exactly when it lies in the part of s. */
  lemma PickedPart(x: int, iv: Interval, cdf: seq<nat>, s: nat)
    requires Ok(iv) && ValidCdf(cdf) && Within(x, iv) && s < |cdf|
    ensures var top := iv.v + iv.rng;
      Picked(x, iv, cdf) == s <==> top - Cut(iv.rng, cdf, s - 1) <= x < top - Cut(iv.rng, cdf, s)
  {
    var f := Picked(x, iv, cdf);
    CutDescends(iv.rng, cdf, s);
    if f < s {
      CutOrder(iv.rng, cdf, f, s - 1);
    } else if s < f {
      CutOrder(iv.rng, cdf, s, f - 1);
    }
  }

  /** It does so exactly when every longer number that it starts lies in the
      interval of s. */
  lemma PickedIff(x: int, y: int, d: nat, iv: Interval, cdf: seq<nat>, s: nat)
    requires Ok(iv) && ValidCdf(cdf) && Within(x, iv) && s < |cdf|
    requires Coded(iv, cdf, s).t == iv.t + d && x == Shr(y, d)
    ensures Picked(x, iv, cdf) == s <==> Within(y, Coded(iv, cdf, s))
  {
    var hi, lo := Cut(iv.rng, cdf, s - 1), Cut(iv.rng, cdf, s);
    CutDescends(iv.rng, cdf, s);
    PickedPart(x, iv, cdf, s);
    NarrowWithin(x, y, iv, iv.rng - hi, hi - lo);
  }

  /** A code decodes to s exactly when coding s keeps it. */
  lemma DecodedIff(data: seq<Byte>, iv: Interval, cdf: seq<nat>, s: nat)
    requires Ok(iv) && ValidCdf(cdf) && Holds(data, iv) && s < |cdf|
    ensures Decoded(data, iv, cdf) == s <==> Holds(data, Coded(iv, cdf, s))
  {
    CutDescends(iv.rng, cdf, s);
    var d := Lift(Cut(iv.rng, cdf, s - 1) - Cut(iv.rng, cdf, s));
    CodePrefix(data, 15 + iv.t, d);
    assert 15 + (iv.t + d) == 15 + iv.t + d;
    PickedIff(Code(data, 15 + iv.t), Code(data, 15 + iv.t + d), d, iv, cdf, s);
  }

  // ---- adaptation

  function Rate(cdf: seq<nat>): nat
    requires |cdf| > 0
  {
    var n := |cdf| - 1;
    4 + cdf[n] / 16 + (if n > 2 then 1 else 0)
  }

  function Raised(x: nat, rate: nat): (y: nat)
    requires x <= 32768
    ensures y >= x
  {
    ShrNat(32768 - x, rate);
    x + Shr(32768 - x, rate)
  }

  function Lowered(x: nat, rate: nat): (y: nat)
    ensures y <= x
  {
    ShrNat(x, rate);
    x - Shr(x, rate)
  }

  function Adapted(cdf: seq<nat>, s: nat): (r: seq<nat>)
    requires ValidCdf(cdf)
    ensures |r| == |cdf|
  {
    var n := |cdf| - 1;
    seq(|cdf|, i requires 0 <= i < |cdf| =>
      if i == n then cdf[n] + (if cdf[n] < 32 then 1 else 0)
      else if i < s then Raised(cdf[i], Rate(cdf))
      else Lowered(cdf[i], Rate(cdf)))
  }

  /** Shifted numbers are no further apart than the numbers themselves. */
  lemma {:induction false} ShrGap(x: nat, y: nat, n: nat)
    requires x <= y
    ensures 0 <= Shr(y, n) - Shr(x, n) <= y - x
  {
    if n > 0 {
      ShrGap(x, y, n - 1);
    }
  }

  lemma RaisedMono(x: nat, y: nat, rate: nat)
    requires x <= y < 32768 && rate >= 1
    ensures Raised(x, rate) <= Raised(y, rate) < 32768
  {
    ShrGap(32768 - y, 32768 - x, rate);
    ShrNat(32768 - y, rate - 1);
  }

  lemma LoweredMono(x: nat, y: nat, rate: nat)
    requires x <= y
    ensures Lowered(x, rate) <= Lowered(y, rate)
  {
    ShrGap(x, y, rate);
  }

  /** Adaptation keeps a distribution a distribution. */
  lemma AdaptedValid(cdf: seq<nat>, s: nat)
    requires ValidCdf(cdf) && s < |cdf|
    ensures ValidCdf(Adapted(cdf, s))
  {
    var r := Adapted(cdf, s);
    var n := |cdf| - 1;
    var rate := Rate(cdf);
    forall i | 0 <= i < n
      ensures r[i] < 32768
    {
      RaisedMono(cdf[i], cdf[i], rate);
    }
    forall i, j | 0 <= i <= j < n
      ensures r[j] <= r[i]
    {
      RaisedMono(cdf[j], cdf[i], rate);
      LoweredMono(cdf[j], cdf[i], rate);
    }
  }

  /** Adapts a distribution in place. */
  method Adapt(cdf: array<nat>, n: nat, s: nat)
    requires cdf.Length == n + 1 && ValidCdf(cdf[..]) && s <= n
    modifies cdf
    ensures cdf[..] == Adapted(old(cdf[..]), s)
  {
    ghost var was := cdf[..];
    var count := cdf[n];
    var rate := 4 + count / 16 + (if n > 2 then 1 else 0);
    ghost var next := Adapted(was, s);
    for i := 0 to s
      invariant forall j :: i <= j <= n ==> cdf[j] == was[j]
      invariant forall j :: 0 <= j < i ==> cdf[j] == next[j]
    {
      cdf[i] := Raised(cdf[i], rate);
    }
    for i := s to n
      invariant forall j :: i <= j <= n ==> cdf[j] == was[j]
      invariant forall j :: 0 <= j < i ==> cdf[j] == next[j]
    {
      cdf[i] := Lowered(cdf[i], rate);
    }
    cdf[n] := count + (if count < 32 then 1 else 0);
    assert cdf[..] == next;
  }

  /** Adapts the distribution of one adaptive bit in place. */
  method AdaptBit(cdf: array<nat>, bit: nat)
    requires cdf.Length == 2 && ValidCdf(cdf[..]) && bit < 2
    modifies cdf
    ensures cdf[..] == Adapted(old(cdf[..]), bit)
  {
    ghost var was := cdf[..];
    var count := cdf[1];
    var rate := 4 + count / 16;
    if bit != 0 {
      cdf[0] := Raised(cdf[0], rate);
    } else {
      cdf[0] := Lowered(cdf[0], rate);
    }
    cdf[1] := count + (if count < 32 then 1 else 0);
    assert cdf[..] == Adapted(was, bit);
  }

  /** The count of a two-valued distribution does not move its one boundary. */
  lemma SameBit(iv: Interval, cdf: seq<nat>, bit: nat)
    requires Ok(iv) && |cdf| == 2 && ValidCdf(cdf) && bit < 2
    ensures Coded(iv, cdf, bit) == Coded(iv, BitCdf(cdf[0]), bit)
  {
    CutDescends(iv.rng, cdf, 1);
    CutDescends(iv.rng, BitCdf(cdf[0]), 1);
  }

  // ---- whole runs

  /** One coding call: an unadapted bit with probability f, or a symbol of the
      distribution at index `table`. An adaptive bit is a symbol with n = 1. */
  datatype Op = Bit(f: nat, bit: nat) | Sym(table: nat, s: nat)

  datatype Coder = Coder(iv: Interval, tables: seq<seq<nat>>)

  ghost predicate ValidTables(tables: seq<seq<nat>>) {
    forall i :: 0 <= i < |tables| ==> ValidCdf(tables[i])
  }

  ghost predicate ValidOp(op: Op, tables: seq<seq<nat>>) {
    match op
    case Bit(f, bit) => f < 32768 && bit < 2
    case Sym(table, s) => table < |tables| && s < |tables[table]|
  }

  function Step(c: Coder, op: Op): (c': Coder)
    requires Ok(c.iv) && ValidTables(c.tables) && ValidOp(op, c.tables)
    ensures Ok(c'.iv) && ValidTables(c'.tables)
    ensures |c'.tables| == |c.tables|
    ensures forall i :: 0 <= i < |c.tables| ==> |c'.tables[i]| == |c.tables[i]|
    ensures c'.iv.t >= c.iv.t
  {
    match op
    case Bit(f, bit) =>
      CodedOk(c.iv, BitCdf(f), bit);
      Coder(Coded(c.iv, BitCdf(f), bit), c.tables)
    case Sym(table, s) =>
      CodedOk(c.iv, c.tables[table], s);
      AdaptedValid(c.tables[table], s);
      Coder(Coded(c.iv, c.tables[table], s), c.tables[table := Adapted(c.tables[table], s)])
  }

  ghost predicate ValidOps(ops: seq<Op>, tables: seq<seq<nat>>) {
    forall i :: 0 <= i < |ops| ==> ValidOp(ops[i], tables)
  }

  /** Where coding a whole sequence of calls leaves the coder. */
  function Run(c: Coder, ops: seq<Op>): (c': Coder)
    requires Ok(c.iv) && ValidTables(c.tables) && ValidOps(ops, c.tables)
    ensures Ok(c'.iv) && ValidTables(c'.tables) && c'.iv.t >= c.iv.t
    decreases |ops|
  {
    if ops == [] then c else Run(Step(c, ops[0]), ops[1..])
  }

  /** What the decoder is asked for, and what it answers. */
  function Answer(op: Op): nat {
    match op
    case Bit(_, bit) => bit
    case Sym(_, s) => s
  }

  /** The distribution an operation codes with. */
  function CdfOf(c: Coder, op: Op): (cdf: seq<nat>)
    requires ValidTables(c.tables) && ValidOp(op, c.tables)
    ensures ValidCdf(cdf) && Answer(op) < |cdf|
  {
    match op
    case Bit(f, _) => BitCdf(f)
    case Sym(table, _) => c.tables[table]
  }

  function Answered(op: Op, s: nat): Op {
    match op
    case Bit(f, _) => Bit(f, s)
    case Sym(table, _) => Sym(table, s)
  }

  /** The operation with the decoder's answer in place of its own. */
  function Asked(c: Coder, data: seq<Byte>, op: Op): (op': Op)
    requires Ok(c.iv) && ValidTables(c.tables) && ValidOp(op, c.tables) && Holds(data, c.iv)
    ensures ValidOp(op', c.tables)
  {
    Answered(op, Decoded(data, c.iv, CdfOf(c, op)))
  }

  lemma StepIv(c: Coder, op: Op)
    requires Ok(c.iv) && ValidTables(c.tables) && ValidOp(op, c.tables)
    ensures Step(c, op).iv == Coded(c.iv, CdfOf(c, op), Answer(op))
  {
  }

  lemma AskedHolds(c: Coder, data: seq<Byte>, op: Op)
    requires Ok(c.iv) && ValidTables(c.tables) && ValidOp(op, c.tables) && Holds(data, c.iv)
    ensures Holds(data, Step(c, Asked(c, data, op)).iv)
  {
    var op' := Asked(c, data, op);
    StepIv(c, op');
    DecodedIff(data, c.iv, CdfOf(c, op), Answer(op'));
  }

  /** Coding an operation only shrinks the set of codes, and a code that is
      left answers that operation. */
  lemma StepHolds(c: Coder, data: seq<Byte>, op: Op)
    requires Ok(c.iv) && ValidTables(c.tables) && ValidOp(op, c.tables)
    requires Holds(data, Step(c, op).iv)
    ensures Holds(data, c.iv)
    ensures Asked(c, data, op) == op
  {
    var cdf := CdfOf(c, op);
    var s := Answer(op);
    StepIv(c, op);
    CodedHolds(c.iv, data, cdf, s);
    DecodedIff(data, c.iv, cdf, s);
  }

  lemma CodedHolds(iv: Interval, data: seq<Byte>, cdf: seq<nat>, s: nat)
    requires Ok(iv) && ValidCdf(cdf) && s < |cdf| && Holds(data, Coded(iv, cdf, s))
    ensures Holds(data, iv)
  {
    var hi, lo := Cut(iv.rng, cdf, s - 1), Cut(iv.rng, cdf, s);
    CutDescends(iv.rng, cdf, s);
    NarrowHolds(data, iv, iv.rng - hi, hi - lo);
  }

  lemma StepOps(c: Coder, op: Op, ops: seq<Op>)
    requires Ok(c.iv) && ValidTables(c.tables) && ValidOp(op, c.tables) && ValidOps(ops, c.tables)
    ensures ValidOps(ops, Step(c, op).tables)
  {
  }

  /** A code in the interval a run reached lies in every interval on the way. */
  lemma {:induction false} RunHolds(c: Coder, data: seq<Byte>, ops: seq<Op>)
    requires Ok(c.iv) && ValidTables(c.tables) && ValidOps(ops, c.tables)
    requires Holds(data, Run(c, ops).iv)
    ensures Holds(data, c.iv)
    decreases |ops|
  {
    if ops != [] {
      StepOps(c, ops[0], ops[1..]);
      RunHolds(Step(c, ops[0]), data, ops[1..]);
      StepHolds(c, data, ops[0]);
    }
  }

  /** The operations a decoder reads off a code. Only the kind of each call,
      its probability or its table, is taken from `asks`. */
  function DecodeAll(c: Coder, data: seq<Byte>, asks: seq<Op>): seq<Op>
    requires Ok(c.iv) && ValidTables(c.tables) && ValidOps(asks, c.tables) && Holds(data, c.iv)
    decreases |asks|
  {
    if asks == [] then []
    else
      var op := Asked(c, data, asks[0]);
      AskedHolds(c, data, asks[0]);
      StepOps(c, op, asks[1..]);
      [op] + DecodeAll(Step(c, op), data, asks[1..])
  }

  /** The same call with another answer asks the same question. */
  predicate SameAsk(a: Op, b: Op) {
    match (a, b)
    case (Bit(f, _), Bit(g, _)) => f == g
    case (Sym(s, _), Sym(t, _)) => s == t
    case _ => false
  }

  predicate SameAsks(asks: seq<Op>, ops: seq<Op>) {
    |asks| == |ops| && forall i :: 0 <= i < |ops| ==> SameAsk(asks[i], ops[i])
  }

  lemma NextAsks(asks: seq<Op>, ops: seq<Op>)
    requires SameAsks(asks, ops) && ops != []
    ensures asks != [] && SameAsk(asks[0], ops[0]) && SameAsks(asks[1..], ops[1..])
  {
  }

  lemma AskedSame(c: Coder, data: seq<Byte>, ask: Op, op: Op)
    requires SameAsk(ask, op) && Ok(c.iv) && ValidTables(c.tables)
    requires ValidOp(ask, c.tables) && ValidOp(op, c.tables) && Holds(data, c.iv)
    ensures Asked(c, data, ask) == Asked(c, data, op)
  {
  }

  lemma DecodeUnfold(c: Coder, data: seq<Byte>, asks: seq<Op>, op: Op)
    requires Ok(c.iv) && ValidTables(c.tables) && ValidOps(asks, c.tables) && Holds(data, c.iv)
    requires asks != [] && op == Asked(c, data, asks[0])
    requires Holds(data, Step(c, op).iv) && ValidOps(asks[1..], Step(c, op).tables)
    ensures DecodeAll(c, data, asks) == [op] + DecodeAll(Step(c, op), data, asks[1..])
  {
  }

  /** Round trip: every code in the final interval decodes to the operations
      that were coded, whatever answers the questions carried. */
  lemma {:induction false} RoundTrip(c: Coder, data: seq<Byte>, ops: seq<Op>, asks: seq<Op>)
    requires Ok(c.iv) && ValidTables(c.tables) && ValidOps(ops, c.tables) && ValidOps(asks, c.tables)
    requires SameAsks(asks, ops)
    requires Holds(data, Run(c, ops).iv)
    ensures Holds(data, c.iv)
    ensures DecodeAll(c, data, asks) == ops
    decreases |ops|
  {
    if ops != [] {
      var c' := Step(c, ops[0]);
      StepOps(c, ops[0], ops[1..]);
      StepOps(c, ops[0], asks[1..]);
      NextAsks(asks, ops);
      RoundTrip(c', data, ops[1..], asks[1..]);
      StepHolds(c, data, ops[0]);
      AskedSame(c, data, asks[0], ops[0]);
      DecodeUnfold(c, data, asks, ops[0]);
    }
  }
}
