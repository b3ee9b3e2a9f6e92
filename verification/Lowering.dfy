// Lowering: the quotations of a program become blocks in a table, each a flat
// list of instructions, and a quotation becomes a reference to its block.

module Lowering {
  import opened Syntax

  datatype Instr =
    | ConstInt(i: int)
    | ConstFloat(x: real)
    | ConstStr(s: string)
    | ConstBlock(id: nat)
    | Store(name: string)
    | Take(name: string)
    | ConstCap(cap: string)
    | Load(name: string)
    | Oper(sym: string)
    | Invoke
    | Select
    | Loop
    | Match
    | Attempt

  type Block = seq<Instr>

  /** The instruction of a node that is not a quotation. */
  function InstrOf(n: Node): Instr
    requires !n.Blk?
  {
    match n
    case Int(i, _) => ConstInt(i)
    case Flt(x, _) => ConstFloat(x)
    case Str(s, _) => ConstStr(s)
    case Name(x, _) => if x == "ty" then Attempt else Load(x)
    case Bind(x, _) => Store(x)
    case Move(x, _) => Take(x)
    case Cap(c, _) => ConstCap(c)
    case Op(sym, _) =>
      if sym == "@" then Invoke else if sym == "?" then Select
      else if sym == ";" then Loop else if sym == "??" then Match else Oper(sym)
  }

  // ---- what the builder makes

  /** The blocks of the quotations in some nodes, and the nodes' own instructions. */
  datatype Lowered = Lowered(table: seq<Block>, instrs: Block)

  function Lower(nodes: seq<Node>, base: nat): Lowered
    decreases nodes
  {
    if nodes == [] then Lowered([], [])
    else
      var last := |nodes| - 1;
      var front := Lower(nodes[..last], base);
      LowerNode(front, nodes[last], base)
  }

  function LowerNode(front: Lowered, n: Node, base: nat): Lowered
    decreases n
  {
    if n.Blk? then
      var inner := Lower(n.nodes, base + |front.table|);
      Lowered(front.table + inner.table + [inner.instrs],
              front.instrs + [ConstBlock(base + |front.table| + |inner.table|)])
    else Lowered(front.table, front.instrs + [InstrOf(n)])
  }

  /** The quotations in the order of their blocks. */
  function Quoted(nodes: seq<Node>): seq<seq<Node>>
    decreases nodes
  {
    if nodes == [] then []
    else
      var last := |nodes| - 1;
      Quoted(nodes[..last]) + QuotedNode(nodes[last])
  }

  function QuotedNode(n: Node): seq<seq<Node>>
    decreases n
  {
    if n.Blk? then Quoted(n.nodes) + [n.nodes] else []
  }

  /** Every quotation has one block. */
  lemma {:induction false} LowerSize(nodes: seq<Node>, base: nat)
    ensures |Lower(nodes, base).table| == |Quoted(nodes)| && |Lower(nodes, base).instrs| == |nodes|
    decreases nodes
  {
    if nodes != [] {
      var last := |nodes| - 1;
      LowerSize(nodes[..last], base);
      if nodes[last].Blk? {
        LowerSize(nodes[last].nodes, base + |Lower(nodes[..last], base).table|);
      }
    }
  }

  class Builder {
    var blocks: seq<Block>

    constructor ()
      ensures blocks == []
    {
      blocks := [];
    }

    method LowerSeq(nodes: seq<Node>) returns (id: nat)
      modifies this
      ensures var l := Lower(nodes, |old(blocks)|);
              blocks == old(blocks) + l.table + [l.instrs] && id == |blocks| - 1
      decreases nodes
    {
      var instrs: Block := [];
      ghost var before := blocks;
      for k := 0 to |nodes|
        invariant blocks == before + Lower(nodes[..k], |before|).table && instrs == Lower(nodes[..k], |before|).instrs
      {
        var n := nodes[k];
        assert nodes[..k + 1][..k] == nodes[..k];
        ghost var front := Lower(nodes[..k], |before|);
        if n.Blk? {
          var inner := LowerSeq(n.nodes);
          instrs := instrs + [ConstBlock(inner)];
          ghost var l := Lower(n.nodes, |before| + |front.table|);
          assert blocks == before + (front.table + l.table + [l.instrs]);
        } else {
          instrs := instrs + [InstrOf(n)];
        }
      }
      assert nodes[..|nodes|] == nodes;
      blocks := blocks + [instrs];
      id := |blocks| - 1;
    }
  }

  datatype Program = Program(blocks: seq<Block>, main: nat)

  function LowerProgram(nodes: seq<Node>): Program {
    var l := Lower(nodes, 0);
    Program(l.table + [l.instrs], |l.table|)
  }

  method LowerAll(nodes: seq<Node>) returns (p: Program)
    ensures p == LowerProgram(nodes)
  {
    var b := new Builder();
    var main := b.LowerSeq(nodes);
    p := Program(b.blocks, main);
  }

  // ---- where the blocks come from

  ghost predicate InstrFrom(c: Instr, n: Node, origin: seq<seq<Node>>, below: nat) {
    if n.Blk? then c.ConstBlock? && c.id < below && c.id < |origin| && origin[c.id] == n.nodes
    else c == InstrOf(n)
  }

  /** The instructions are those of the nodes, and refer to earlier blocks only. */
  ghost predicate BlockFrom(b: Block, nodes: seq<Node>, origin: seq<seq<Node>>, below: nat) {
    |b| == |nodes| && forall k :: 0 <= k < |b| ==> InstrFrom(b[k], nodes[k], origin, below)
  }

  ghost predicate TableFrom(blocks: seq<Block>, origin: seq<seq<Node>>) {
    |blocks| == |origin| && forall id :: 0 <= id < |blocks| ==> BlockFrom(blocks[id], origin[id], origin, id)
  }

  /** Some blocks from number base on. */
  ghost predicate PartFrom(part: seq<Block>, base: nat, origin: seq<seq<Node>>) {
    base + |part| <= |origin|
    && forall i :: 0 <= i < |part| ==> BlockFrom(part[i], origin[base + i], origin, base + i)
  }

  ghost predicate LoweredFrom(l: Lowered, nodes: seq<Node>, base: nat, origin: seq<seq<Node>>) {
    PartFrom(l.table, base, origin) && BlockFrom(l.instrs, nodes, origin, base + |l.table|)
  }

  /** The blocks from number base on come from the quotations, if that is where the
      quotations are said to be. */
  lemma {:induction false} LowerFrom(nodes: seq<Node>, base: nat, origin: seq<seq<Node>>)
    requires base + |Quoted(nodes)| <= |origin| && origin[base..base + |Quoted(nodes)|] == Quoted(nodes)
    ensures LoweredFrom(Lower(nodes, base), nodes, base, origin)
    decreases nodes, 1
  {
    if nodes != [] {
      var last := |nodes| - 1;
      LowerSize(nodes[..last], base);
      Parts(origin, base, Quoted(nodes[..last]), QuotedNode(nodes[last]));
      LowerFrom(nodes[..last], base, origin);
      LowerNodeFrom(Lower(nodes[..last], base), nodes[..last], nodes[last], base, origin);
      assert nodes == nodes[..last] + [nodes[last]];
    }
  }

  lemma {:induction false} LowerNodeFrom(front: Lowered, nodes: seq<Node>, n: Node, base: nat, origin: seq<seq<Node>>)
    requires LoweredFrom(front, nodes, base, origin)
    requires base + |front.table| + |QuotedNode(n)| <= |origin|
    requires origin[base + |front.table|..base + |front.table| + |QuotedNode(n)|] == QuotedNode(n)
    ensures LoweredFrom(LowerNode(front, n, base), nodes + [n], base, origin)
    decreases n, 0
  {
    if n.Blk? {
      var at := base + |front.table|;
      var l := Lower(n.nodes, at);
      LowerSize(n.nodes, at);
      Parts(origin, at, Quoted(n.nodes), [n.nodes]);
      assert origin[at + |l.table|] == origin[at + |l.table|..at + |l.table| + 1][0];
      LowerFrom(n.nodes, at, origin);
      JoinFrom(front.table, l.table, l.instrs, base, n.nodes, origin);
      SnocFrom(front.instrs, nodes, ConstBlock(at + |l.table|), n, origin, at, at + |l.table| + 1);
    } else {
      SnocFrom(front.instrs, nodes, InstrOf(n), n, origin, base + |front.table|, base + |front.table|);
    }
  }

  lemma SnocFrom(b: Block, nodes: seq<Node>, c: Instr, n: Node, origin: seq<seq<Node>>, below: nat, below': nat)
    requires BlockFrom(b, nodes, origin, below) && below <= below' && InstrFrom(c, n, origin, below')
    ensures BlockFrom(b + [c], nodes + [n], origin, below')
  {
    forall k | 0 <= k < |b + [c]|
      ensures InstrFrom((b + [c])[k], (nodes + [n])[k], origin, below')
    {
      if k < |b| {
        assert InstrFrom(b[k], nodes[k], origin, below);
      }
    }
  }

  lemma Parts(origin: seq<seq<Node>>, base: nat, a: seq<seq<Node>>, b: seq<seq<Node>>)
    requires base + |a + b| <= |origin| && origin[base..base + |a + b|] == a + b
    ensures origin[base..base + |a|] == a && origin[base + |a|..base + |a| + |b|] == b
  {
    var both := origin[base..base + |a + b|];
    assert both[..|a|] == a && both[|a|..] == b;
    assert origin[base..base + |a|] == both[..|a|];
    assert origin[base + |a|..base + |a| + |b|] == both[|a|..];
  }

  lemma JoinFrom(a: seq<Block>, b: seq<Block>, top: Block, base: nat, nodes: seq<Node>, origin: seq<seq<Node>>)
    requires PartFrom(a, base, origin) && PartFrom(b, base + |a|, origin)
    requires base + |a| + |b| < |origin| && origin[base + |a| + |b|] == nodes
    requires BlockFrom(top, nodes, origin, base + |a| + |b|)
    ensures PartFrom(a + b + [top], base, origin)
  {
    var all := a + b + [top];
    forall i | 0 <= i < |all|
      ensures BlockFrom(all[i], origin[base + i], origin, base + i)
    {
      if |a| <= i < |a| + |b| {
        assert BlockFrom(b[i - |a|], origin[base + |a| + (i - |a|)], origin, base + |a| + (i - |a|));
      }
    }
  }

  /** The quotations of a program and the program itself, as its table has them. */
  function Origin(nodes: seq<Node>): seq<seq<Node>> {
    Quoted(nodes) + [nodes]
  }

  lemma ProgramFrom(nodes: seq<Node>)
    ensures var p := LowerProgram(nodes);
            TableFrom(p.blocks, Origin(nodes)) && p.main == |p.blocks| - 1 && Origin(nodes)[p.main] == nodes
  {
    var p, origin := LowerProgram(nodes), Origin(nodes);
    LowerSize(nodes, 0);
    assert origin[0..0 + |Quoted(nodes)|] == Quoted(nodes);
    LowerFrom(nodes, 0, origin);
    forall id | 0 <= id < |p.blocks|
      ensures BlockFrom(p.blocks[id], origin[id], origin, id)
    {
      if id < |p.blocks| - 1 {
        assert BlockFrom(Lower(nodes, 0).table[id], origin[0 + id], origin, 0 + id);
      }
    }
  }

  // ---- unlowering

  /** References go to earlier blocks, so following them ends. */
  ghost predicate Backward(blocks: seq<Block>) {
    forall id, k :: 0 <= id < |blocks| && 0 <= k < |blocks[id]| && blocks[id][k].ConstBlock? ==> blocks[id][k].id < id
  }

  type Table = b: seq<Block> | Backward(b) witness []

  function UnlowerBlock(blocks: Table, id: nat): seq<Node>
    requires id < |blocks|
    decreases id, 1
  {
    seq(|blocks[id]|, k requires 0 <= k < |blocks[id]| => UnlowerInstr(blocks, blocks[id][k], id))
  }

  /** The nodes come back without their positions. */
  function UnlowerInstr(blocks: Table, c: Instr, below: nat): Node
    requires below <= |blocks| && (c.ConstBlock? ==> c.id < below)
    decreases below, 0
  {
    match c
    case ConstInt(i) => Int(i, 0)
    case ConstFloat(x) => Flt(x, 0)
    case ConstStr(s) => Str(s, 0)
    case ConstBlock(id) => Blk(UnlowerBlock(blocks, id), 0)
    case Store(x) => Bind(x, 0)
    case Take(x) => Move(x, 0)
    case ConstCap(s) => Cap(s, 0)
    case Load(x) => Name(x, 0)
    case Oper(sym) => Op(sym, 0)
    case Invoke => Op("@", 0)
    case Select => Op("?", 0)
    case Loop => Op(";", 0)
    case Match => Op("??", 0)
    case Attempt => Name("ty", 0)
  }

  function Unlower(p: Program): seq<Node>
    requires Backward(p.blocks) && p.main < |p.blocks|
  {
    UnlowerBlock(p.blocks, p.main)
  }

  /** The node without its positions, which two nodes may differ in and be equal. */
  function Bare(n: Node): Node {
    match n
    case Int(i, _) => Int(i, 0)
    case Flt(x, _) => Flt(x, 0)
    case Str(s, _) => Str(s, 0)
    case Blk(nodes, _) => Blk(AllBare(nodes), 0)
    case Name(x, _) => Name(x, 0)
    case Bind(x, _) => Bind(x, 0)
    case Move(x, _) => Move(x, 0)
    case Cap(c, _) => Cap(c, 0)
    case Op(sym, _) => Op(sym, 0)
  }

  function AllBare(nodes: seq<Node>): seq<Node> {
    seq(|nodes|, k requires 0 <= k < |nodes| => Bare(nodes[k]))
  }

  lemma FromBackward(blocks: seq<Block>, origin: seq<seq<Node>>)
    requires TableFrom(blocks, origin)
    ensures Backward(blocks)
  {
    forall id, k | 0 <= id < |blocks| && 0 <= k < |blocks[id]| && blocks[id][k].ConstBlock?
      ensures blocks[id][k].id < id
    {
      assert BlockFrom(blocks[id], origin[id], origin, id);
      assert InstrFrom(blocks[id][k], origin[id][k], origin, id);
    }
  }

  lemma {:induction false} UnlowerFrom(blocks: Table, origin: seq<seq<Node>>, id: nat)
    requires TableFrom(blocks, origin) && id < |blocks|
    ensures UnlowerBlock(blocks, id) == AllBare(origin[id])
    decreases id
  {
    assert BlockFrom(blocks[id], origin[id], origin, id);
    forall k | 0 <= k < |blocks[id]|
      ensures UnlowerBlock(blocks, id)[k] == AllBare(origin[id])[k]
    {
      var c, n := blocks[id][k], origin[id][k];
      assert InstrFrom(c, n, origin, id);
      if n.Blk? {
        UnlowerFrom(blocks, origin, c.id);
      }
    }
  }

  /** Lowering loses nothing but the positions. */
  lemma RoundTrip(nodes: seq<Node>)
    ensures var p := LowerProgram(nodes);
            Backward(p.blocks) && p.main < |p.blocks| && Unlower(p) == AllBare(nodes)
  {
    var p := LowerProgram(nodes);
    ProgramFrom(nodes);
    FromBackward(p.blocks, Origin(nodes));
    UnlowerFrom(p.blocks, Origin(nodes), p.main);
  }

  // ---- no two blocks come from one quotation

  /** How many quotations are empty. */
  function Empties(quoted: seq<seq<Node>>): nat {
    if quoted == [] then 0 else (if quoted[0] == [] then 1 else 0) + Empties(quoted[1..])
  }

  lemma {:induction false} EmptyAt(quoted: seq<seq<Node>>, i: nat)
    requires i < |quoted| && quoted[i] == []
    ensures Empties(quoted) >= 1
  {
    if i > 0 {
      EmptyAt(quoted[1..], i - 1);
    }
  }

  lemma {:induction false} OneEmpty(quoted: seq<seq<Node>>, i: nat, j: nat)
    requires Empties(quoted) <= 1 && i < j < |quoted| && quoted[i] == []
    ensures quoted[j] != []
  {
    if quoted[j] == [] {
      if i == 0 {
        EmptyAt(quoted[1..], j - 1);
      } else {
        OneEmpty(quoted[1..], i - 1, j - 1);
      }
    }
  }

  lemma {:induction false} Front(nodes: seq<Node>, i: nat)
    requires i <= |nodes|
    ensures Positions(nodes[..i]) <= Positions(nodes)
    ensures Distinct(nodes) ==> Distinct(nodes[..i])
  {
    if i > 0 {
      Front(nodes[1..], i - 1);
      assert nodes[..i][1..] == nodes[1..][..i - 1];
    }
  }

  lemma {:induction false} FrontApart(nodes: seq<Node>, j: nat)
    requires Distinct(nodes) && j < |nodes|
    ensures Positions(nodes[..j]) !! NodePositions(nodes[j]) && DistinctNode(nodes[j])
  {
    if j > 0 {
      FrontApart(nodes[1..], j - 1);
      PositionsAt(nodes[1..], j - 1);
      assert nodes[..j][1..] == nodes[1..][..j - 1];
    }
  }

  lemma {:induction false} QuotedWithin(nodes: seq<Node>, i: nat, a: Node)
    requires i < |Quoted(nodes)| && a in Quoted(nodes)[i]
    ensures a.pos in Positions(nodes)
    decreases nodes
  {
    var last := |nodes| - 1;
    var n := nodes[last];
    var before := Quoted(nodes[..last]);
    Front(nodes, last);
    PositionsAt(nodes, last);
    if i < |before| {
      QuotedWithin(nodes[..last], i, a);
    } else {
      QuotedNodeWithin(n, i - |before|, a);
    }
  }

  lemma {:induction false} QuotedNodeWithin(n: Node, i: nat, a: Node)
    requires i < |QuotedNode(n)| && a in QuotedNode(n)[i]
    ensures n.Blk? && a.pos in Positions(n.nodes)
    decreases n, 0
  {
    if i < |Quoted(n.nodes)| {
      QuotedWithin(n.nodes, i, a);
    } else {
      var k :| 0 <= k < |n.nodes| && n.nodes[k] == a;
      PositionsAt(n.nodes, k);
    }
  }

  /** What is inside a quotation is not among the nodes around it. */
  lemma {:induction false} QuotedNotTop(nodes: seq<Node>, i: nat, a: Node)
    requires Distinct(nodes) && i < |Quoted(nodes)| && a in Quoted(nodes)[i]
    ensures a !in nodes
    decreases |nodes|
  {
    var last := |nodes| - 1;
    var n := nodes[last];
    var before := Quoted(nodes[..last]);
    Front(nodes, last);
    FrontApart(nodes, last);
    assert nodes == nodes[..last] + [n];
    if i < |before| {
      QuotedNotTop(nodes[..last], i, a);
      QuotedWithin(nodes[..last], i, a);
    } else {
      QuotedNodeWithin(n, i - |before|, a);
      if a in nodes[..last] {
        var k :| 0 <= k < last && nodes[..last][k] == a;
        PositionsAt(nodes[..last], k);
      }
    }
  }

  /** Only empty quotations can look the same. */
  lemma {:induction false} QuotedApart(nodes: seq<Node>, i: nat, j: nat)
    requires Distinct(nodes) && i < j < |Quoted(nodes)| && Quoted(nodes)[i] == Quoted(nodes)[j]
    ensures Quoted(nodes)[i] == []
    decreases nodes
  {
    var last := |nodes| - 1;
    var n := nodes[last];
    var before := Quoted(nodes[..last]);
    Front(nodes, last);
    FrontApart(nodes, last);
    if j < |before| {
      QuotedApart(nodes[..last], i, j);
    } else if Quoted(nodes)[i] != [] {
      var a := Quoted(nodes)[i][0];
      QuotedNodeWithin(n, j - |before|, a);
      if i < |before| {
        QuotedWithin(nodes[..last], i, a);
      } else if j - |before| < |Quoted(n.nodes)| {
        QuotedApart(n.nodes, i - |before|, j - |before|);
      } else {
        QuotedNotTop(n.nodes, i - |before|, a);
      }
    }
  }

  /** With at most one empty quotation, a block is known by what it came from. */
  lemma NoTwins(nodes: seq<Node>, i: nat, j: nat)
    requires Distinct(nodes) && Empties(Quoted(nodes)) <= 1
    requires i < j < |Quoted(nodes)|
    ensures Quoted(nodes)[i] != Quoted(nodes)[j]
  {
    if Quoted(nodes)[i] == Quoted(nodes)[j] {
      QuotedApart(nodes, i, j);
      OneEmpty(Quoted(nodes), i, j);
    }
  }
}
