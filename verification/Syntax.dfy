// Zown programs as the parser delivers them (zown/parser.py): a sequence of
// nodes, each with the position of its token.

module Syntax {

  datatype Node =
    | Int(i: int, pos: nat)
    | Flt(x: real, pos: nat)
    | Str(s: string, pos: nat)
    | Blk(nodes: seq<Node>, pos: nat)
    | Name(name: string, pos: nat)
    | Bind(name: string, pos: nat)
    | Move(name: string, pos: nat)
    | Cap(cap: string, pos: nat)
    | Op(sym: string, pos: nat)

  /** Every position in a sequence, inside its blocks too. */
  ghost function Positions(nodes: seq<Node>): set<nat> {
    if nodes == [] then {}
    else NodePositions(nodes[0]) + Positions(nodes[1..])
  }

  ghost function NodePositions(n: Node): set<nat> {
    {n.pos} + (if n.Blk? then Positions(n.nodes) else {})
  }

  /** No two nodes share a position: each comes from a token of its own. */
  ghost predicate Distinct(nodes: seq<Node>) {
    nodes == [] || (DistinctNode(nodes[0]) && Distinct(nodes[1..])
                    && NodePositions(nodes[0]) !! Positions(nodes[1..]))
  }

  ghost predicate DistinctNode(n: Node) {
    n.Blk? ==> Distinct(n.nodes) && n.pos !in Positions(n.nodes)
  }

  lemma {:induction false} PositionsAt(nodes: seq<Node>, i: nat)
    requires i < |nodes|
    ensures NodePositions(nodes[i]) <= Positions(nodes)
  {
    if i > 0 {
      PositionsAt(nodes[1..], i - 1);
    }
  }

  lemma {:induction false} DistinctAt(nodes: seq<Node>, i: nat, j: nat)
    requires Distinct(nodes) && i < j < |nodes|
    ensures DistinctNode(nodes[i]) && DistinctNode(nodes[j])
    ensures NodePositions(nodes[i]) !! NodePositions(nodes[j])
  {
    if i == 0 {
      PositionsAt(nodes[1..], j - 1);
      DistinctNodeAt(nodes[1..], j - 1);
    } else {
      DistinctAt(nodes[1..], i - 1, j - 1);
    }
  }

  lemma {:induction false} DistinctNodeAt(nodes: seq<Node>, i: nat)
    requires Distinct(nodes) && i < |nodes|
    ensures DistinctNode(nodes[i])
  {
    if i > 0 {
      DistinctNodeAt(nodes[1..], i - 1);
    }
  }
}
