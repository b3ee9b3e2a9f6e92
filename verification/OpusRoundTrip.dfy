// What one Opus range coder writes the other reads, and both count the packet's
// spent bits alike after every call.

module OpusRoundTrip {
  import opened Bits
  import opened OpusModel
  import opened OpusEncoder
  import opened OpusDecoder

  /** One call of the encoder, and what it then says is spent. */
  method Put(w: Enc, op: Op) returns (mark: (int, int))
    requires w.Valid() && ValidOp(op)
    modifies w, w.buf
    ensures w.Valid() && w.coder == Step(old(w.coder), op)
    ensures mark == Mark(w.coder)
    ensures w.error == 0 ==> old(w.error) == 0
  {
    if op.Freq? || op.Bin? || op.Icdf? {
      PutSymbol(w, op);
    } else {
      PutNumber(w, op);
    }
    mark := (w.Tell(), w.TellFrac());
  }

  method PutSymbol(w: Enc, op: Op)
    requires w.Valid() && ValidOp(op) && (op.Freq? || op.Bin? || op.Icdf?)
    modifies w, w.buf
    ensures w.Valid() && w.coder == Step(old(w.coder), op)
    ensures w.error == 0 ==> old(w.error) == 0
  {
    match op {
      case Freq(ft, table, s) => PutFreq(w, ft, table, s);
      case Bin(ftb, table, s) => PutBin(w, ftb, table, s);
      case Icdf(ftb, table, s) => w.Icdf(s, table, ftb);
    }
  }

  method PutNumber(w: Enc, op: Op)
    requires w.Valid() && ValidOp(op) && (op.Bit? || op.Raw? || op.Uint?)
    modifies w, w.buf
    ensures w.Valid() && w.coder == Step(old(w.coder), op)
    ensures w.error == 0 ==> old(w.error) == 0
  {
    match op {
      case Bit(logp, s) => w.BitLogp(s, logp);
      case Raw(n, x) => PutRaw(w, n, x);
      case Uint(ft, x) => w.Uint(x, ft);
    }
  }

  method PutFreq(w: Enc, ft: nat, table: seq<nat>, s: nat)
    requires w.Valid() && ft <= BOT && ValidTable(table, ft) && Coded(table, s)
    modifies w, w.buf
    ensures w.Valid() && w.coder == FreqStep(old(w.coder), ft, table, s)
    ensures w.error == 0 ==> old(w.error) == 0
  {
    BelowOrder(table, ft, s, s + 1);
    w.Encode(Below(table, ft, s), Below(table, ft, s + 1), ft);
  }

  method PutBin(w: Enc, ftb: nat, table: seq<nat>, s: nat)
    requires w.Valid() && ftb <= 23 && ValidTable(table, Pow2(ftb)) && Coded(table, s)
    modifies w, w.buf
    ensures w.Valid() && w.coder == ShiftStep(old(w.coder), ftb, table, s)
    ensures w.error == 0 ==> old(w.error) == 0
  {
    BelowOrder(table, Pow2(ftb), s, s + 1);
    w.EncodeBin(Below(table, Pow2(ftb), s), Below(table, Pow2(ftb), s + 1), ftb);
  }

  method PutRaw(w: Enc, n: nat, x: nat)
    requires w.Valid() && n <= 25 && x < Pow2(n)
    modifies w, w.buf
    ensures w.Valid() && w.coder == RawStep(old(w.coder), n, x)
    ensures w.error == 0 ==> old(w.error) == 0
  {
    w.Bits(x, n);
    if n == 0 {
      Pow2Values();
      RawNone(w.coder);
    }
  }

  /** The symbol a frequency belongs to. */
  method Lookup(table: seq<nat>, ft: nat, k: nat) returns (s: nat)
    requires ValidTable(table, ft) && k < ft
    ensures Coded(table, s) && Below(table, ft, s) <= k < Below(table, ft, s + 1)
  {
    s := 0;
    while k >= Below(table, ft, s + 1)
      invariant s < |table| && Below(table, ft, s) <= k
      decreases |table| - s
    {
      s := s + 1;
    }
  }

  lemma PointedPart(rng: nat, r: nat, ft: nat, k: nat, fl: nat, fh: nat, val: nat)
    requires r > 0 && Times(r, ft) <= rng && fl <= k < fh <= ft
    requires Bound(rng, r, ft, k + 1) <= val < Bound(rng, r, ft, k)
    ensures Bound(rng, r, ft, fh) <= val < Bound(rng, r, ft, fl)
  {
    if k + 1 < fh {
      BoundOrder(rng, r, ft, k + 1, fh);
    }
    if fl < k {
      BoundOrder(rng, r, ft, fl, k);
    }
  }

  method GetFreq(r: EcDec, ft: nat, table: seq<nat>) returns (s: nat)
    requires r.Valid() && ft <= BOT && ValidTable(table, ft)
    modifies r
    ensures r.Valid() && r.error == old(r.error)
    ensures Coded(table, s) && r.coder == FreqStep(old(r.coder), ft, table, s)
  {
    DivRatio(r.rng, ft);
    var k := r.Decode(ft);
    s := Lookup(table, ft, k);
    PointedPart(r.rng, r.ext, ft, k, Below(table, ft, s), Below(table, ft, s + 1), r.val);
    r.Update(Below(table, ft, s), Below(table, ft, s + 1), ft);
  }

  method GetBin(r: EcDec, ftb: nat, table: seq<nat>) returns (s: nat)
    requires r.Valid() && ftb <= 23 && ValidTable(table, Pow2(ftb))
    modifies r
    ensures r.Valid() && r.error == old(r.error)
    ensures Coded(table, s) && r.coder == ShiftStep(old(r.coder), ftb, table, s)
  {
    ShrRatio(r.rng, ftb);
    var ft := Pow2(ftb);
    var k := r.DecodeBin(ftb);
    s := Lookup(table, ft, k);
    PointedPart(r.rng, r.ext, ft, k, Below(table, ft, s), Below(table, ft, s + 1), r.val);
    r.Update(Below(table, ft, s), Below(table, ft, s + 1), ft);
  }

  /** An integer that was written is read back: the decoder does not run into
      its error branch. */
  method GetUint(r: EcDec, ft: nat, ghost x: nat) returns (y: nat)
    requires r.Valid() && 2 <= ft <= WORD && x < ft
    requires Fits(r.buf, UintStep(r.coder, ft, x))
    modifies r
    ensures r.Valid() && r.error == old(r.error)
    ensures y == x && r.coder == UintStep(old(r.coder), ft, x)
  {
    ghost var c := r.coder;
    ghost var hi, lo;
    y, hi, lo := r.Uint(ft);
    UintParts(r.buf, c, ft, x, hi, lo);
  }

  lemma UintParts(data: seq<Byte>, c: Coder, ft: nat, x: nat, hi: nat, lo: nat)
    requires Ok(c) && 2 <= ft <= WORD && x < ft && Fits(data, UintStep(c, ft, x))
    requires hi < HighCount(ft) <= 256 && lo < Pow2(Spill(ft))
    requires Fits(data, RawStep(FreqStep(c, HighCount(ft), Units(HighCount(ft)), hi), Spill(ft), lo))
    ensures Joined(ft, hi, lo) == x
    ensures RawStep(FreqStep(c, HighCount(ft), Units(HighCount(ft)), hi), Spill(ft), lo) == UintStep(c, ft, x)
  {
    var b, fs := Spill(ft), HighCount(ft);
    SpillBounds(ft, x);
    var cx := FreqStep(c, fs, Units(fs), Shr(x, b));
    var ch := FreqStep(c, fs, Units(fs), hi);
    RawUnique(data, cx, b, Low(x, b), Low(x, b));
    RawUnique(data, ch, b, lo, lo);
    FreqUnique(data, c, fs, Units(fs), Shr(x, b), hi);
    RawUnique(data, cx, b, Low(x, b), lo);
  }

  method GetSymbol(r: EcDec, ask: Op, ghost op: Op) returns (got: Op)
    requires r.Valid() && ValidOp(op) && ValidAsk(ask) && SameAsk(ask, op)
    requires ask.Freq? || ask.Bin? || ask.Icdf?
    modifies r
    ensures r.Valid() && r.error == old(r.error)
    ensures ValidOp(got) && SameAsk(op, got) && r.coder == Step(old(r.coder), got)
  {
    match ask {
      case Freq(ft, table, _) =>
        var s := GetFreq(r, ft, table);
        got := Freq(ft, table, s);
      case Bin(ftb, table, _) =>
        var s := GetBin(r, ftb, table);
        got := Bin(ftb, table, s);
      case Icdf(ftb, table, _) =>
        var s := r.Icdf(table, ftb);
        got := Icdf(ftb, table, s);
    }
  }

  method GetNumber(r: EcDec, ask: Op, ghost op: Op) returns (got: Op)
    requires r.Valid() && ValidOp(op) && ValidAsk(ask) && SameAsk(ask, op)
    requires ask.Bit? || ask.Raw? || ask.Uint?
    requires Fits(r.buf, Step(r.coder, op))
    modifies r
    ensures r.Valid() && r.error == old(r.error)
    ensures ValidOp(got) && SameAsk(op, got) && r.coder == Step(old(r.coder), got)
  {
    match ask {
      case Bit(logp, _) =>
        var s := r.BitLogp(logp);
        got := Bit(logp, s);
      case Raw(n, _) =>
        var x := r.Bits(n);
        got := Raw(n, x);
      case Uint(ft, _) =>
        var x := GetUint(r, ft, op.x);
        got := Uint(ft, x);
    }
  }

  /** One call of the decoder, on a packet that meets what `op` says. Only the
      question in `ask` is used. */
  method Get(r: EcDec, ask: Op, ghost op: Op) returns (got: Op, mark: (int, int))
    requires r.Valid() && ValidOp(op) && ValidAsk(ask) && SameAsk(ask, op)
    requires Fits(r.buf, Step(r.coder, op))
    modifies r
    ensures r.Valid() && r.error == old(r.error)
    ensures got == op && r.coder == Step(old(r.coder), op)
    ensures mark == Mark(r.coder)
  {
    ghost var c := r.coder;
    if ask.Freq? || ask.Bin? || ask.Icdf? {
      got := GetSymbol(r, ask, op);
    } else {
      got := GetNumber(r, ask, op);
    }
    StepUnique(r.buf, c, op, got);
    mark := (r.Tell(), r.TellFrac());
  }

  method PutAll(w: Enc, ops: seq<Op>) returns (marks: seq<(int, int)>)
    requires w.Valid() && ValidOps(ops)
    modifies w, w.buf
    ensures w.Valid() && w.coder == Run(old(w.coder), ops)
    ensures marks == Marks(old(w.coder), ops)
    ensures w.error == 0 ==> old(w.error) == 0
    decreases |ops|
  {
    if ops == [] {
      marks := [];
    } else {
      var mark := Put(w, ops[0]);
      var rest := PutAll(w, ops[1..]);
      marks := [mark] + rest;
    }
  }

  /** The last count is that of the whole run. */
  lemma {:induction false} LastMark(c: Coder, ops: seq<Op>)
    requires Ok(c) && ValidOps(ops)
    ensures Ok(Run(c, ops)) && (ops != [] ==> Marks(c, ops)[|ops| - 1] == Mark(Run(c, ops)))
    decreases |ops|
  {
    if ops != [] {
      StepOk(c, ops[0]);
      LastMark(Step(c, ops[0]), ops[1..]);
    }
  }

  /** Does a packet hold these calls, which answer those questions? */
  ghost predicate Codes(c: Coder, data: seq<Byte>, asks: seq<Op>, ops: seq<Op>) {
    && Ok(c) && ValidOps(ops) && SameAsks(asks, ops) && (forall i :: 0 <= i < |asks| ==> ValidAsk(asks[i]))
    && Fits(data, Run(c, ops))
  }

  lemma NextCall(c: Coder, data: seq<Byte>, asks: seq<Op>, ops: seq<Op>)
    requires Codes(c, data, asks, ops) && asks != []
    ensures ops != [] && ValidOp(ops[0]) && ValidAsk(asks[0]) && SameAsk(asks[0], ops[0])
    ensures Ok(c) && Fits(data, Step(c, ops[0])) && Codes(Step(c, ops[0]), data, asks[1..], ops[1..])
    ensures ops == [ops[0]] + ops[1..]
    ensures Marks(c, ops) == [Mark(Step(c, ops[0]))] + Marks(Step(c, ops[0]), ops[1..])
  {
    StepOk(c, ops[0]);
    RunFits(data, Step(c, ops[0]), ops[1..]);
  }

  method GetAll(r: EcDec, asks: seq<Op>, ghost ops: seq<Op>) returns (read: seq<Op>, marks: seq<(int, int)>)
    requires r.Valid() && Codes(r.coder, r.buf, asks, ops)
    modifies r
    ensures r.Valid() && r.error == old(r.error)
    ensures read == ops && marks == Marks(old(r.coder), ops)
    decreases |asks|
  {
    if asks == [] {
      read, marks := [], [];
    } else {
      NextCall(r.coder, r.buf, asks, ops);
      var op, mark := Get(r, asks[0], ops[0]);
      var ops', marks' := GetAll(r, asks[1..], ops[1..]);
      read, marks := [op] + ops', [mark] + marks';
    }
  }

  /** Encodes a run of calls into a packet of the given size and, unless the
      packet was too small, reads it back. It is large enough if the bits said to
      be spent fit into it. */
  method Transcode(size: nat, ops: seq<Op>, asks: seq<Op>)
    returns (error: int, data: seq<Byte>, read: seq<Op>, spent: seq<(int, int)>, spent': seq<(int, int)>)
    requires ValidOps(ops) && SameAsks(asks, ops) && forall i :: 0 <= i < |asks| ==> ValidAsk(asks[i])
    ensures |data| == size && |spent| == |ops|
    ensures error == 0 ==> read == ops && spent == spent'
    ensures ops != [] && spent[|ops| - 1].0 <= 8 * size ==> error == 0
  {
    StartOk();
    var w := new Enc(size);
    spent := PutAll(w, ops);
    LastMark(START, ops);
    data := w.Done();
    error := w.error;
    read, spent' := [], [];
    if error == 0 {
      var r := new EcDec(data);
      read, spent' := GetAll(r, asks, ops);
    }
  }
}
