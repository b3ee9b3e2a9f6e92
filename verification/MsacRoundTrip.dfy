// The two halves of the AV1 range coder joined: what MsacEnc writes, Msac reads.

module MsacRoundTrip {
  import opened Bits
  import opened MsacModel
  import opened MsacEncoder
  import opened MsacDecoder
  import opened MsacTail

  /** Distributions as both sides hold them: one list object each. */
  ghost predicate Loaded(cdfs: seq<array<nat>>, tables: seq<seq<nat>>)
    reads cdfs
  {
    && |cdfs| == |tables|
    && (forall i :: 0 <= i < |cdfs| ==> cdfs[i][..] == tables[i])
    && (forall i, j :: 0 <= i < j < |cdfs| ==> cdfs[i] != cdfs[j])
  }

  method Load(tables: seq<seq<nat>>) returns (cdfs: seq<array<nat>>)
    ensures Loaded(cdfs, tables) && fresh(cdfs)
  {
    cdfs := [];
    for i := 0 to |tables|
      invariant |cdfs| == i && fresh(cdfs)
      invariant forall j :: 0 <= j < i ==> cdfs[j][..] == tables[j]
      invariant forall j, k :: 0 <= j < k < i ==> cdfs[j] != cdfs[k]
    {
      var a := new nat[|tables[i]|](k requires 0 <= k < |tables[i]| => tables[i][k]);
      assert a[..] == tables[i];
      cdfs := cdfs + [a];
    }
  }

  /** Codes one call and adapts the distribution it used. */
  method Put(ms: MsacEnc, cdfs: seq<array<nat>>, op: Op, ghost c: Coder)
    requires ms.Valid() && ms.View() == c.iv && Loaded(cdfs, c.tables)
    requires ValidTables(c.tables) && ValidOp(op, c.tables)
    modifies ms, cdfs
    ensures ms.Valid() && ms.View() == Step(c, op).iv && Loaded(cdfs, Step(c, op).tables)
  {
    match op
    case Bit(f, bit) =>
      ms.Bool(bit, f);
    case Sym(table, s) =>
      ms.Symbol(cdfs[table], cdfs[table].Length - 1, s);
  }

  /** Reads one call: its kind is known, its answer is not. */
  method Get(ms: Msac, cdfs: seq<array<nat>>, ask: Op, ghost c: Coder) returns (op: Op)
    requires ms.Valid() && ms.View() == c.iv && Loaded(cdfs, c.tables)
    requires ValidTables(c.tables) && ValidOp(ask, c.tables)
    modifies ms, cdfs
    ensures ValidOp(op, c.tables) && SameAsk(ask, op)
    ensures old(ms.Near()) ==> op == SeenAsked(c, ms.buf, old(ms.edge), ask)
    ensures c.iv.t <= 8 * |ms.buf| + 34 ==> Holds(ms.buf, c.iv) && op == Asked(c, ms.buf, ask)
    ensures old(ms.Frozen()) ==> ms.Frozen() && (ms.Near() ==> ms.edge == old(ms.edge))
    ensures ms.Valid() && ms.View() == Step(c, op).iv && Loaded(cdfs, Step(c, op).tables)
  {
    match ask
    case Bit(f, _) =>
      var bit := ms.Bool(f);
      op := Bit(f, bit);
    case Sym(table, _) =>
      var s := ms.Symbol(cdfs[table], cdfs[table].Length - 1);
      op := Sym(table, s);
  }

  method PutAll(w: MsacEnc, cdfs: seq<array<nat>>, ops: seq<Op>, ghost c: Coder)
    requires w.Valid() && w.View() == c.iv && Loaded(cdfs, c.tables)
    requires ValidTables(c.tables) && ValidOps(ops, c.tables)
    modifies w, cdfs
    ensures w.Valid() && w.View() == Run(c, ops).iv && Loaded(cdfs, Run(c, ops).tables)
    decreases |ops|
  {
    if ops != [] {
      Put(w, cdfs, ops[0], c);
      StepOps(c, ops[0], ops[1..]);
      PutAll(w, cdfs, ops[1..], Step(c, ops[0]));
    }
  }

  /** Do the data code these calls, which answer those questions? */
  ghost predicate Codes(c: Coder, data: seq<Byte>, asks: seq<Op>, ops: seq<Op>) {
    && Ok(c.iv) && ValidTables(c.tables) && ValidOps(ops, c.tables) && ValidOps(asks, c.tables)
    && SameAsks(asks, ops)
    && Holds(data, Run(c, ops).iv) && Run(c, ops).iv.t <= 8 * |data|
  }

  lemma NextOp(c: Coder, data: seq<Byte>, asks: seq<Op>, ops: seq<Op>)
    requires Codes(c, data, asks, ops) && ops != []
    ensures asks != [] && Codes(Step(c, ops[0]), data, asks[1..], ops[1..])
    ensures Run(c, ops) == Run(Step(c, ops[0]), ops[1..]) && c.iv.t <= 8 * |data|
    ensures Holds(data, c.iv) && Asked(c, data, asks[0]) == ops[0]
    ensures ops == [ops[0]] + ops[1..]
  {
    NextAsks(asks, ops);
    StepOps(c, ops[0], ops[1..]);
    StepOps(c, ops[0], asks[1..]);
    NextAnswer(c, data, asks[0], ops[0], ops[1..]);
  }

  lemma NextAnswer(c: Coder, data: seq<Byte>, ask: Op, op: Op, rest: seq<Op>)
    requires Ok(c.iv) && ValidTables(c.tables) && ValidOp(op, c.tables) && ValidOp(ask, c.tables)
    requires SameAsk(ask, op) && ValidOps(rest, Step(c, op).tables)
    requires Holds(data, Run(Step(c, op), rest).iv)
    ensures Holds(data, c.iv) && Asked(c, data, ask) == op
  {
    RunHolds(Step(c, op), data, rest);
    StepHolds(c, data, op);
    AskedSame(c, data, ask, op);
  }

  /** Reads a run back, if the code lies in the interval that run reached. */
  method GetAll(r: Msac, cdfs: seq<array<nat>>, asks: seq<Op>, ghost ops: seq<Op>, ghost c: Coder)
    returns (read: seq<Op>)
    requires r.Valid() && r.View() == c.iv && Loaded(cdfs, c.tables) && Codes(c, r.buf, asks, ops)
    modifies r, cdfs
    ensures read == ops && Loaded(cdfs, Run(c, ops).tables)
    decreases |asks|
  {
    if asks == [] {
      read := [];
    } else {
      NextOp(c, r.buf, asks, ops);
      var op := Get(r, cdfs, asks[0], c);
      var rest := GetAll(r, cdfs, asks[1..], ops[1..], Step(c, op));
      read := [op] + rest;
    }
  }

  /** Encodes a run of calls with one coder and reads it back with the other.
      The answers in `asks` are arbitrary: only the questions are used. */
  method Transcode(tables: seq<seq<nat>>, ops: seq<Op>, asks: seq<Op>)
    returns (data: seq<Byte>, read: seq<Op>, enc: seq<array<nat>>, dec: seq<array<nat>>)
    requires ValidTables(tables) && ValidOps(ops, tables) && ValidOps(asks, tables)
    requires SameAsks(asks, ops)
    ensures read == ops
    ensures |enc| == |dec| == |tables|
    ensures forall i :: 0 <= i < |tables| ==> enc[i][..] == dec[i][..]
  {
    StartOk();
    ghost var c := Coder(START, tables);
    var w := new MsacEnc();
    enc := Load(tables);
    PutAll(w, enc, ops, c);
    data := w.Done();
    var r := new Msac(data);
    dec := Load(tables);
    read := GetAll(r, dec, asks, ops, c);
  }

  /** An edge that a decoder ends with: the one it has for good, or any that it
      may still get. Up to there it agrees with what the window holds now. */
  ghost predicate EdgeOf(r: Msac, e: nat)
    reads r
  {
    && 8 * |r.buf| + 49 <= e <= 8 * |r.buf| + 63
    && (r.Frozen() && r.Near() ==> e == r.edge)
  }

  lemma EdgeSees(r: Msac, e: nat, iv: Interval)
    requires r.Valid() && r.View() == iv && r.Near() && EdgeOf(r, e)
    ensures Sees(r.buf, e, iv)
  {
  }

  lemma ReadOn(c: Coder, data: seq<Byte>, edge: nat, e: nat, asks: seq<Op>, op: Op, rest: seq<Op>)
    requires Ok(c.iv) && ValidTables(c.tables) && ValidOps(asks, c.tables) && asks != []
    requires e == edge || 15 + c.iv.t <= edge <= e
    requires Sees(data, edge, c.iv) && op == SeenAsked(c, data, edge, asks[0])
    requires ValidOps(asks[1..], Step(c, op).tables) && Sees(data, e, Step(c, op).iv)
    requires rest == SeenAll(Step(c, op), data, e, asks[1..])
    ensures Sees(data, e, c.iv) && [op] + rest == SeenAll(c, data, e, asks)
  {
    assert Seen(data, e, 15 + c.iv.t) == Seen(data, edge, 15 + c.iv.t);
    SeenUnfold(c, data, e, asks, op);
  }

  lemma StepRest(c: Coder, asks: seq<Op>, op: Op, rest: seq<Op>)
    requires Ok(c.iv) && ValidTables(c.tables) && ValidOp(op, c.tables) && asks != [] && SameAsk(asks[0], op)
    requires ValidOps(rest, Step(c, op).tables) && SameAsks(asks[1..], rest)
    ensures ValidOps([op] + rest, c.tables) && SameAsks(asks, [op] + rest)
    ensures Run(c, [op] + rest) == Run(Step(c, op), rest)
  {
    assert ([op] + rest)[1..] == rest;
    forall i | 0 <= i < |asks|
      ensures SameAsk(asks[i], ([op] + rest)[i])
    {
      if i > 0 {
        assert asks[i] == asks[1..][i - 1];
      }
    }
  }

  /** Reads any run of calls off any bytes. */
  method ReadAll(r: Msac, cdfs: seq<array<nat>>, asks: seq<Op>, ghost c: Coder)
    returns (read: seq<Op>, ghost e: nat)
    requires r.Valid() && r.View() == c.iv && Loaded(cdfs, c.tables)
    requires ValidTables(c.tables) && ValidOps(asks, c.tables)
    modifies r, cdfs
    ensures ValidOps(read, c.tables) && SameAsks(asks, read) && old(EdgeOf(r, e))
    ensures r.Valid() && r.View() == Run(c, read).iv && Loaded(cdfs, Run(c, read).tables)
    ensures r.Near() ==> Sees(r.buf, e, c.iv) && read == SeenAll(c, r.buf, e, asks)
    decreases |asks|
  {
    if asks == [] {
      read := [];
      e := if r.Frozen() && r.Near() then r.edge else 8 * |r.buf| + 49;
      if r.Near() {
        EdgeSees(r, e, c.iv);
      }
    } else {
      ghost var edge, near, frozen := r.edge, r.Near(), r.Frozen();
      assert near && !frozen ==> 15 + c.iv.t <= edge <= 8 * |r.buf| + 48;
      assert near ==> Sees(r.buf, edge, c.iv);
      var op := Get(r, cdfs, asks[0], c);
      StepOps(c, op, asks[1..]);
      var rest;
      rest, e := ReadAll(r, cdfs, asks[1..], Step(c, op));
      StepRest(c, asks, op, rest);
      read := [op] + rest;
      if r.Near() {
        ReadOn(c, r.buf, edge, e, asks, op, rest);
      } else if near && frozen {
        e := edge;
      }
    }
  }

  /** Reads calls off any bytes, with the test the decoder makes in the end. It
      never holds: bytes that were cut off are read as the code with zeros up to
      an edge 49 to 63 bits past the end and ones behind it. */
  method ReadAny(data: seq<Byte>, tables: seq<seq<nat>>, asks: seq<Op>)
    returns (read: seq<Op>, truncated: bool, ghost edge: nat)
    requires ValidTables(tables) && ValidOps(asks, tables)
    ensures !truncated
    ensures ValidOps(read, tables) && SameAsks(asks, read)
    ensures Ok(START) && 8 * |data| + 49 <= edge <= 8 * |data| + 63
    ensures Run(Coder(START, tables), read).iv.t <= 8 * |data| + FAR ==>
      Sees(data, edge, START) && read == SeenAll(Coder(START, tables), data, edge, asks)
  {
    StartOk();
    var r := new Msac(data);
    var cdfs := Load(tables);
    read, edge := ReadAll(r, cdfs, asks, Coder(START, tables));
    truncated := r.starved && r.pos > |r.buf|;
  }

  /** A tile that codes a one (MsacTail.CutOffTile) and is cut off reads as a
      zero, and is not found to be truncated. */
  method ReadCut() returns (read: seq<Op>, truncated: bool)
    ensures read == [Bit(16384, 0)] && !truncated
  {
    StartOk();
    ghost var edge;
    read, truncated, edge := ReadAny([], [], [Bit(16384, 1)]);
    OneStep(Coder(START, []), read[0], read);
    CutOffTile(edge);
  }

  lemma OneStep(c: Coder, op: Op, ops: seq<Op>)
    requires Ok(c.iv) && ValidTables(c.tables) && ValidOp(op, c.tables) && ops == [op]
    ensures Run(c, ops).iv.t <= c.iv.t + 15
  {
    StepIv(c, op);
    CutDescends(c.iv.rng, CdfOf(c, op), Answer(op));
    StepOps(c, op, []);
    assert ops[1..] == [];
    assert Run(c, ops) == Step(c, op);
  }
}
