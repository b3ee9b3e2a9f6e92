// A range coder with the distributions it adapts, seen from the syntax above it:
// a writer is the list of what was written, a reader the list of what is still
// to be read. The coder, the bytes and the adaptation stay below.

module Av1Channel {
  import opened Bits
  import opened MsacModel
  import opened MsacEncoder
  import opened MsacDecoder
  import opened MsacRoundTrip

  lemma {:induction false} RunShape(c: Coder, ops: seq<Op>)
    requires Ok(c.iv) && ValidTables(c.tables) && ValidOps(ops, c.tables)
    ensures |Run(c, ops).tables| == |c.tables|
    ensures forall i :: 0 <= i < |c.tables| ==> |Run(c, ops).tables[i]| == |c.tables[i]|
    decreases |ops|
  {
    if ops != [] {
      StepOps(c, ops[0], ops[1..]);
      RunShape(Step(c, ops[0]), ops[1..]);
    }
  }

  lemma {:induction false} RunSnoc(c: Coder, ops: seq<Op>, op: Op)
    requires Ok(c.iv) && ValidTables(c.tables) && ValidOps(ops, c.tables) && ValidOp(op, Run(c, ops).tables)
    ensures ValidOps(ops + [op], c.tables)
    ensures Run(c, ops + [op]) == Step(Run(c, ops), op)
    decreases |ops|
  {
    RunShape(c, ops);
    if ops == [] {
      assert [] + [op] == [op] && [op][1..] == [];
    } else {
      StepOps(c, ops[0], ops[1..]);
      RunSnoc(Step(c, ops[0]), ops[1..], op);
      assert (ops + [op])[1..] == ops[1..] + [op];
    }
  }

  class Writer {
    const ms: MsacEnc
    const cdfs: seq<array<nat>>
    ghost const start: Coder
    ghost var log: seq<Op>

    ghost predicate Valid()
      reads this, ms, cdfs
    {
      && Ok(start.iv) && ValidTables(start.tables) && ValidOps(log, start.tables)
      && ms.Valid() && ms.View() == Run(start, log).iv && Loaded(cdfs, Run(start, log).tables)
    }

    constructor (tables: seq<seq<nat>>)
      requires ValidTables(tables)
      ensures Valid() && log == [] && start == Coder(START, tables) && fresh(ms) && fresh(cdfs)
      ensures |cdfs| == |tables| && forall i :: 0 <= i < |tables| ==> cdfs[i].Length == |tables[i]|
    {
      StartOk();
      ms := new MsacEnc();
      var loaded := Load(tables);
      cdfs := loaded;
      log := [];
      start := Coder(START, tables);
    }

    method Symbol(table: nat, s: nat)
      requires Valid() && table < |cdfs| && s < cdfs[table].Length
      modifies this, ms, cdfs
      ensures Valid() && log == old(log) + [Sym(table, s)]
    {
      Write(Sym(table, s));
    }

    method Equi(bit: nat)
      requires Valid() && bit < 2
      modifies this, ms, cdfs
      ensures Valid() && log == old(log) + [Bit(16384, bit)]
    {
      Write(Bit(16384, bit));
    }

    method Write(op: Op)
      requires Valid() && ValidOp(op, Run(start, log).tables)
      modifies this, ms, cdfs
      ensures Valid() && log == old(log) + [op]
    {
      RunSnoc(start, log, op);
      Put(ms, cdfs, op, Run(start, log));
      log := log + [op];
    }
  }

  class Reader {
    const ms: Msac
    const cdfs: seq<array<nat>>
    ghost var c: Coder
    ghost var rest: seq<Op>

    ghost predicate Valid()
      reads this, ms, cdfs
    {
      && Ok(c.iv) && ValidTables(c.tables) && ValidOps(rest, c.tables)
      && ms.Valid() && ms.View() == c.iv && Loaded(cdfs, c.tables)
      && Holds(ms.buf, Run(c, rest).iv) && Run(c, rest).iv.t <= 8 * |ms.buf|
    }

    /** A reader for bytes that code some list of calls. */
    constructor (tables: seq<seq<nat>>, data: seq<Byte>, ghost ops: seq<Op>)
      requires ValidTables(tables) && Ok(START) && ValidOps(ops, tables)
      requires Holds(data, Run(Coder(START, tables), ops).iv) && Run(Coder(START, tables), ops).iv.t <= 8 * |data|
      ensures Valid() && rest == ops && fresh(ms) && fresh(cdfs)
      ensures |cdfs| == |tables| && forall i :: 0 <= i < |tables| ==> cdfs[i].Length == |tables[i]|
    {
      ms := new Msac(data);
      var loaded := Load(tables);
      cdfs := loaded;
      c := Coder(START, tables);
      rest := ops;
    }

    method Symbol(table: nat) returns (s: nat)
      requires Valid() && rest != [] && rest[0].Sym? && rest[0].table == table
      modifies this, ms, cdfs
      ensures Valid() && s == old(rest)[0].s && rest == old(rest)[1..]
    {
      var op := Read(Sym(table, 0));
      s := op.s;
    }

    method Equi() returns (bit: nat)
      requires Valid() && rest != [] && rest[0].Bit? && rest[0].f == 16384
      modifies this, ms, cdfs
      ensures Valid() && bit == old(rest)[0].bit && rest == old(rest)[1..]
    {
      var op := Read(Bit(16384, 0));
      bit := op.bit;
    }

    method Read(ask: Op) returns (op: Op)
      requires Valid() && rest != [] && SameAsk(ask, rest[0]) && ValidOp(ask, c.tables)
      modifies this, ms, cdfs
      ensures Valid() && op == old(rest)[0] && rest == old(rest)[1..]
    {
      ReadNext(c, ms.buf, ask, rest);
      op := Get(ms, cdfs, ask, c);
      c := Step(c, op);
      rest := rest[1..];
    }
  }

  lemma ReadNext(c: Coder, data: seq<Byte>, ask: Op, ops: seq<Op>)
    requires Ok(c.iv) && ValidTables(c.tables) && ValidOps(ops, c.tables) && ops != []
    requires SameAsk(ask, ops[0]) && ValidOp(ask, c.tables) && Holds(data, Run(c, ops).iv)
    ensures ValidOps(ops[1..], Step(c, ops[0]).tables)
    ensures Run(c, ops) == Run(Step(c, ops[0]), ops[1..]) && c.iv.t <= Run(c, ops).iv.t
    ensures Holds(data, c.iv) && Asked(c, data, ask) == ops[0]
  {
    StepOps(c, ops[0], ops[1..]);
    RunHolds(Step(c, ops[0]), data, ops[1..]);
    StepHolds(c, data, ops[0]);
    AskedSame(c, data, ask, ops[0]);
  }
}
