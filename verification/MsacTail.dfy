// What the AV1 range decoder makes of any bytes, cut off or not. It never says
// that they ended early: it reads on, first zero bits and then ones.

module MsacTail {
  import opened Bits
  import opened MsacModel
  import opened MsacDecoder

  /** The operation with the answer that the code which is read gives. */
  function SeenAsked(c: Coder, data: seq<Byte>, edge: nat, op: Op): (op': Op)
    requires Ok(c.iv) && ValidTables(c.tables) && ValidOp(op, c.tables) && Sees(data, edge, c.iv)
    ensures ValidOp(op', c.tables) && SameAsk(op, op')
  {
    Answered(op, SeenSymbol(data, edge, c.iv, CdfOf(c, op)))
  }

  /** The answers to a whole run of questions. */
  function SeenAll(c: Coder, data: seq<Byte>, edge: nat, asks: seq<Op>): seq<Op>
    requires Ok(c.iv) && ValidTables(c.tables) && ValidOps(asks, c.tables) && Sees(data, edge, c.iv)
    decreases |asks|
  {
    if asks == [] then []
    else
      var op := SeenAsked(c, data, edge, asks[0]);
      SeenStep(c, data, edge, asks[0], op);
      StepOps(c, op, asks[1..]);
      [op] + SeenAll(Step(c, op), data, edge, asks[1..])
  }

  /** An answer is the one that the code gives exactly when the code lies in the
      interval that this answer leaves. */
  lemma SeenStep(c: Coder, data: seq<Byte>, edge: nat, ask: Op, op: Op)
    requires Ok(c.iv) && ValidTables(c.tables) && ValidOp(ask, c.tables) && ValidOp(op, c.tables)
    requires SameAsk(ask, op) && Sees(data, edge, c.iv)
    ensures SeenAsked(c, data, edge, ask) == op <==> Sees(data, edge, Step(c, op).iv)
  {
    var cdf, s := CdfOf(c, op), Answer(op);
    StepIv(c, op);
    CutDescends(c.iv.rng, cdf, s);
    SeenPart(data, edge, c.iv, cdf, s, Step(c, op).iv.t - c.iv.t);
  }

  lemma SeenPart(data: seq<Byte>, edge: nat, iv: Interval, cdf: seq<nat>, s: nat, d: nat)
    requires Ok(iv) && ValidCdf(cdf) && Sees(data, edge, iv) && s < |cdf|
    requires Coded(iv, cdf, s).t == iv.t + d
    ensures SeenSymbol(data, edge, iv, cdf) == s <==> Sees(data, edge, Coded(iv, cdf, s))
  {
    SeenPrefix(data, edge, 15 + iv.t, d);
    assert 15 + (iv.t + d) == 15 + iv.t + d;
    PickedIff(Seen(data, edge, 15 + iv.t), Seen(data, edge, 15 + iv.t + d), d, iv, cdf, s);
  }

  /** A code left by a call was in the interval before it. */
  lemma SeenBefore(data: seq<Byte>, edge: nat, iv: Interval, cdf: seq<nat>, s: nat)
    requires Ok(iv) && ValidCdf(cdf) && s < |cdf| && Sees(data, edge, Coded(iv, cdf, s))
    ensures Sees(data, edge, iv)
  {
    var hi, lo := Cut(iv.rng, cdf, s - 1), Cut(iv.rng, cdf, s);
    CutDescends(iv.rng, cdf, s);
    var d := Lift(hi - lo);
    SeenPrefix(data, edge, 15 + iv.t, d);
    assert 15 + (iv.t + d) == 15 + iv.t + d;
    NarrowWithin(Seen(data, edge, 15 + iv.t), Seen(data, edge, 15 + iv.t + d), iv, iv.rng - hi, hi - lo);
  }

  lemma {:induction false} SeenRun(c: Coder, data: seq<Byte>, edge: nat, ops: seq<Op>)
    requires Ok(c.iv) && ValidTables(c.tables) && ValidOps(ops, c.tables)
    requires Sees(data, edge, Run(c, ops).iv)
    ensures Sees(data, edge, c.iv)
    decreases |ops|
  {
    if ops != [] {
      StepOps(c, ops[0], ops[1..]);
      SeenRun(Step(c, ops[0]), data, edge, ops[1..]);
      StepIv(c, ops[0]);
      SeenBefore(data, edge, c.iv, CdfOf(c, ops[0]), Answer(ops[0]));
    }
  }

  /** Bytes, cut off or not, are read as the calls `ops` exactly when the code
      that is read lies in the interval those calls lead to. */
  lemma {:induction false} ReadsBackIff(c: Coder, data: seq<Byte>, edge: nat, ops: seq<Op>, asks: seq<Op>)
    requires Ok(c.iv) && ValidTables(c.tables) && ValidOps(ops, c.tables) && ValidOps(asks, c.tables)
    requires SameAsks(asks, ops) && Sees(data, edge, c.iv)
    ensures SeenAll(c, data, edge, asks) == ops <==> Sees(data, edge, Run(c, ops).iv)
    decreases |ops|
  {
    if ops != [] {
      NextAsks(asks, ops);
      StepOps(c, ops[0], ops[1..]);
      StepOps(c, ops[0], asks[1..]);
      SeenStep(c, data, edge, asks[0], ops[0]);
      if SeenAsked(c, data, edge, asks[0]) == ops[0] {
        ReadsBackIff(Step(c, ops[0]), data, edge, ops[1..], asks[1..]);
        SeenNext(c, data, edge, asks, ops);
      } else {
        SeenOther(c, data, edge, asks, ops);
      }
    }
  }

  /** Reading on after an answer, and coding on after that call. */
  lemma SeenNext(c: Coder, data: seq<Byte>, edge: nat, asks: seq<Op>, ops: seq<Op>)
    requires Ok(c.iv) && ValidTables(c.tables) && ValidOps(asks, c.tables) && ValidOps(ops, c.tables)
    requires Sees(data, edge, c.iv) && asks != [] && ops != []
    requires SeenAsked(c, data, edge, asks[0]) == ops[0] && Sees(data, edge, Step(c, ops[0]).iv)
    requires ValidOps(asks[1..], Step(c, ops[0]).tables) && ValidOps(ops[1..], Step(c, ops[0]).tables)
    ensures SeenAll(c, data, edge, asks) == ops
       <==> SeenAll(Step(c, ops[0]), data, edge, asks[1..]) == ops[1..]
    ensures Run(c, ops) == Run(Step(c, ops[0]), ops[1..])
  {
    SeenUnfold(c, data, edge, asks, ops[0]);
    SameTail(SeenAll(c, data, edge, asks), ops[0], SeenAll(Step(c, ops[0]), data, edge, asks[1..]), ops);
  }

  lemma SameTail(all: seq<Op>, op: Op, rest: seq<Op>, ops: seq<Op>)
    requires all == [op] + rest && ops != [] && op == ops[0]
    ensures all == ops <==> rest == ops[1..]
  {
    assert ops == [op] + ops[1..];
    assert all[1..] == rest;
  }

  /** After another answer neither the calls nor the interval come back. */
  lemma SeenOther(c: Coder, data: seq<Byte>, edge: nat, asks: seq<Op>, ops: seq<Op>)
    requires Ok(c.iv) && ValidTables(c.tables) && ValidOps(asks, c.tables) && ValidOps(ops, c.tables)
    requires Sees(data, edge, c.iv) && asks != [] && ops != []
    requires SeenAsked(c, data, edge, asks[0]) != ops[0] && !Sees(data, edge, Step(c, ops[0]).iv)
    ensures SeenAll(c, data, edge, asks) != ops && !Sees(data, edge, Run(c, ops).iv)
  {
    assert SeenAll(c, data, edge, asks)[0] == SeenAsked(c, data, edge, asks[0]);
    StepOps(c, ops[0], ops[1..]);
    if Sees(data, edge, Run(Step(c, ops[0]), ops[1..]).iv) {
      SeenRun(Step(c, ops[0]), data, edge, ops[1..]);
    }
  }

  lemma SeenUnfold(c: Coder, data: seq<Byte>, edge: nat, asks: seq<Op>, op: Op)
    requires Ok(c.iv) && ValidTables(c.tables) && ValidOps(asks, c.tables) && Sees(data, edge, c.iv)
    requires asks != [] && op == SeenAsked(c, data, edge, asks[0])
    requires Sees(data, edge, Step(c, op).iv) && ValidOps(asks[1..], Step(c, op).tables)
    ensures SeenAll(c, data, edge, asks) == [op] + SeenAll(Step(c, op), data, edge, asks[1..])
  {
  }

  /** The code that is read is the data with zero bits behind it up to the edge,
      and no longer. */
  lemma SeenZeros(data: seq<Byte>, edge: nat, k: nat)
    requires edge >= 8 * |data|
    ensures Seen(data, edge, k) == Code(data, k) <==> k <= edge
  {
    if k > edge {
      var n := k - edge;
      ShlShl(Be(data), edge - 8 * |data|, n);
      assert Code(data, k) == Shl(Code(data, edge), n);
      ShlSum(Code(data, edge), 1, n);
      ShlLess(1, 2, n - 1);
      Pow2Mono(1, n);
      Pow2Values();
    }
  }

  /** Up to the edge the answers are those of the data with zero bits behind it. */
  lemma {:induction false} ZerosRead(c: Coder, data: seq<Byte>, edge: nat, asks: seq<Op>, ops: seq<Op>)
    requires Ok(c.iv) && ValidTables(c.tables) && ValidOps(asks, c.tables) && ValidOps(ops, c.tables)
    requires Sees(data, edge, c.iv) && ops == SeenAll(c, data, edge, asks)
    requires 15 + Run(c, ops).iv.t <= edge
    ensures Holds(data, c.iv) && ops == DecodeAll(c, data, asks)
    decreases |asks|
  {
    if asks != [] {
      var op := SeenAsked(c, data, edge, asks[0]);
      SeenStep(c, data, edge, asks[0], op);
      StepOps(c, op, asks[1..]);
      StepOps(c, op, ops[1..]);
      SeenUnfold(c, data, edge, asks, op);
      SeenNext(c, data, edge, asks, ops);
      ZerosRead(Step(c, op), data, edge, asks[1..], ops[1..]);
      DecodeUnfold(c, data, asks, op);
      assert ops == [op] + ops[1..];
    }
  }

  /** A tile that codes a one, and what is read when it is cut off: a zero. */
  lemma CutOffTile(edge: nat)
    requires edge >= 15
    ensures var c, ops := Coder(START, []), [Bit(16384, 1)];
      && Ok(START) && ValidOps(ops, c.tables) && Holds([0x80], Run(c, ops).iv)
      && Sees([], edge, START) && SeenAll(c, [], edge, ops) == [Bit(16384, 0)]
  {
    StartOk();
    var c, op := Coder(START, []), Bit(16384, 1);
    OneCoded([0x80], START, Cut(0x8000, BitCdf(16384), 0));
    ZeroRead(edge);
    assert SeenAsked(c, [], edge, op) == Bit(16384, 0);
    SeenStep(c, [], edge, op, Bit(16384, 0));
    StepIv(c, op);
    assert [op][1..] == [];
    assert Run(c, [op]) == Step(c, op);
  }

  lemma OneCoded(data: seq<Byte>, iv: Interval, cut: nat)
    requires iv == START && Ok(iv) && cut == Cut(iv.rng, BitCdf(16384), 0) && data == [0x80]
    ensures Holds(data, Coded(iv, BitCdf(16384), 1))
  {
    assert cut == 16388;
    CodedPart(iv, BitCdf(16384), cut);
    NarrowOnce(iv, iv.rng - cut, cut);
    var next := Coded(iv, BitCdf(16384), 1);
    OneCode(data, 15 + next.t);
    HoldsCode(data, next, 32768);
  }

  lemma HoldsCode(data: seq<Byte>, iv: Interval, x: int)
    requires x == Code(data, 15 + iv.t) && Within(x, iv)
    ensures Holds(data, iv)
  {
  }

  lemma CodedPart(iv: Interval, cdf: seq<nat>, cut: nat)
    requires Ok(iv) && ValidCdf(cdf) && |cdf| == 2 && cut == Cut(iv.rng, cdf, 0)
    ensures 0 < cut <= iv.rng && Coded(iv, cdf, 1) == Narrow(iv, iv.rng - cut, cut)
  {
    CutDescends(iv.rng, cdf, 0);
    CutDescends(iv.rng, cdf, 1);
  }

  lemma NarrowOnce(iv: Interval, off: nat, size: nat)
    requires 0x4000 <= size < 0x8000
    ensures Narrow(iv, off, size) == Interval(2 * (iv.v + off), 2 * size, iv.t + 1)
  {
    Pow2Values();
    BitLenUnique(size, 15);
    ShlOne(iv.v + off, Lift(size));
    ShlOne(size, Lift(size));
  }

  lemma ShlOne(x: int, n: nat)
    requires n == 1
    ensures Shl(x, n) == 2 * x
  {
  }

  lemma OneCode(data: seq<Byte>, k: nat)
    requires data == [0x80] && k == 16
    ensures Code(data, k) == 32768
  {
    assert data[..0] == [];
    assert Be(data[..0]) == 0 && Be(data) == 128;
    ShlByte(128, k - 16);
  }

  lemma ZeroRead(edge: nat)
    requires edge >= 15 && Ok(START)
    ensures Sees([], edge, START) && SeenSymbol([], edge, START, BitCdf(16384)) == 0
  {
    EmptyCode([]);
    ShlZero(15);
    PickedPart(0, START, BitCdf(16384), 0);
  }
}
