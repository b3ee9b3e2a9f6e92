// From what the checker reports to what may be relied on at each node: a
// judgement that follows the program's structure, and its proof from the
// reports by the uniqueness of positions.

module CheckerStatic {
  import opened Syntax
  import opened CheckerModel
  import Machine

  ghost predicate RqAt(c: Ctx, nodes: seq<Node>, i: nat) {
    WordAt(c, nodes, i, "rq") && CapAt(nodes, i - 1)
  }

  ghost predicate Unresolvable(n: Node) {
    n.Move? || (n.Name? && n.name !in Machine.BUILTINS)
  }

  /** What a finding at the node at i says of the run that reaches it. */
  ghost predicate Means(c: Ctx, f: Finding, nodes: seq<Node>, i: nat, known: Known, inTy: bool, moved: set<string>)
    requires i < |nodes|
  {
    match f
    case Runs(_, caps) => known == Exact(caps)
    case Diag(_, rule) =>
      match rule
      case Denied =>
        !inTy && RqAt(c, nodes, i) && known.Exact? && nodes[i - 1].cap !in known.caps
      case NeverGranted =>
        !c.usesTy && RqAt(c, nodes, i) && nodes[i - 1].cap !in c.grantable
      case MovedOut => Unresolvable(nodes[i]) && nodes[i].name in moved
      case Unbound => Unresolvable(nodes[i]) && nodes[i].name !in c.bound
      case _ => true
  }

  ghost predicate LeafOk(c: Ctx, d: set<Finding>, nodes: seq<Node>, i: nat, known: Known, inTy: bool, moved: set<string>)
    requires i < |nodes|
  {
    forall f | f in d && f.pos == nodes[i].pos :: Means(c, f, nodes, i, known, inTy, moved)
  }

  /** A sequence may be run from i on with this authority and these names gone. */
  ghost predicate Safe(c: Ctx, d: set<Finding>, nodes: seq<Node>, i: nat, known: Known, inTy: bool, moved: set<string>)
    requires i <= |nodes|
    decreases nodes, 2 * (|nodes| - i) + 1
  {
    i == |nodes|
    || (LeafOk(c, d, nodes, i, known, inTy, moved)
        && ChildOk(c, d, nodes, i, known, inTy, moved)
        && Safe(c, d, nodes, i + 1, known, inTy, MovedAfter(c, nodes[i], moved)))
  }

  /** Faults under unknown authority are not predicted, as if they were caught. */
  function InnerTy(known: Known, use: Use, inTy: bool): bool {
    known.Unknown? || inTy || use == Try
  }

  ghost predicate ChildOk(c: Ctx, d: set<Finding>, nodes: seq<Node>, i: nat, known: Known, inTy: bool, moved: set<string>)
    requires i < |nodes|
    decreases nodes, 2 * (|nodes| - i)
  {
    nodes[i].Blk? ==>
      var use := UseOf(c, nodes, i);
      if use == Arms then
        && SafeArms(c, d, nodes[i].nodes, 0, known, inTy, moved)
        && (known.Unknown? && moved == {} ==> Safe(c, d, nodes[i].nodes, 0, Unknown, true, {}))
      else
        var k := InnerKnown(nodes, i, use, known);
        Safe(c, d, nodes[i].nodes, 0, k, InnerTy(k, use, inTy), InnerMoved(c, use, moved))
  }

  /** The bodies of the arms that a match can get to. */
  ghost predicate SafeArms(c: Ctx, d: set<Finding>, arms: seq<Node>, j: nat, known: Known, inTy: bool, moved: set<string>)
    decreases arms, 2 * |arms| + 2, |arms| - j
  {
    j + 1 < |arms| && arms[j].Blk? && arms[j + 1].Blk? ==>
      && Safe(c, d, arms[j + 1].nodes, 0, known, inTy, moved)
      && SafeArms(c, d, arms, j + 2, known, inTy, moved)
  }

  /** A block that may be run from anywhere. */
  ghost predicate Loose(c: Ctx, d: set<Finding>, b: seq<Node>) {
    Safe(c, d, b, 0, Unknown, true, {})
  }

  // ---- laws of the judgement

  /** Knowing more names to be gone asks less of the reports. */
  lemma {:induction false} SafeMono(c: Ctx, d: set<Finding>, nodes: seq<Node>, i: nat, known: Known, inTy: bool,
                                    m: set<string>, m': set<string>)
    requires i <= |nodes| && m <= m' && Safe(c, d, nodes, i, known, inTy, m)
    ensures Safe(c, d, nodes, i, known, inTy, m')
    decreases nodes, 2 * (|nodes| - i) + 1, 0
  {
    if i < |nodes| {
      forall f | f in d && f.pos == nodes[i].pos
        ensures Means(c, f, nodes, i, known, inTy, m')
      {
        assert Means(c, f, nodes, i, known, inTy, m);
      }
      ChildMono(c, d, nodes, i, known, inTy, m, m');
      SafeMono(c, d, nodes, i + 1, known, inTy, MovedAfter(c, nodes[i], m), MovedAfter(c, nodes[i], m'));
    }
  }

  lemma {:induction false} ChildMono(c: Ctx, d: set<Finding>, nodes: seq<Node>, i: nat, known: Known, inTy: bool,
                                     m: set<string>, m': set<string>)
    requires i < |nodes| && m <= m' && ChildOk(c, d, nodes, i, known, inTy, m)
    ensures ChildOk(c, d, nodes, i, known, inTy, m')
    decreases nodes, 2 * (|nodes| - i), 0
  {
    if nodes[i].Blk? {
      var use := UseOf(c, nodes, i);
      if use == Arms {
        ArmsMono(c, d, nodes[i].nodes, 0, known, inTy, m, m');
      } else {
        var k := InnerKnown(nodes, i, use, known);
        SafeMono(c, d, nodes[i].nodes, 0, k, InnerTy(k, use, inTy), InnerMoved(c, use, m), InnerMoved(c, use, m'));
      }
    }
  }

  lemma {:induction false} ArmsMono(c: Ctx, d: set<Finding>, arms: seq<Node>, j: nat, known: Known, inTy: bool,
                                    m: set<string>, m': set<string>)
    requires m <= m' && SafeArms(c, d, arms, j, known, inTy, m)
    ensures SafeArms(c, d, arms, j, known, inTy, m')
    decreases arms, 2 * |arms| + 2, |arms| - j
  {
    if j + 1 < |arms| && arms[j].Blk? && arms[j + 1].Blk? {
      SafeMono(c, d, arms[j + 1].nodes, 0, known, inTy, m, m');
      ArmsMono(c, d, arms, j + 2, known, inTy, m, m');
    }
  }

  /** A block that may be run from anywhere may also be matched from anywhere. */
  lemma {:induction false} LooseArms(c: Ctx, d: set<Finding>, b: seq<Node>, j: nat)
    requires j <= |b| && Safe(c, d, b, j, Unknown, true, {})
    ensures SafeArms(c, d, b, j, Unknown, true, {})
    decreases |b| - j
  {
    if j + 1 < |b| && b[j].Blk? && b[j + 1].Blk? {
      assert Safe(c, d, b, j + 1, Unknown, true, {});
      assert ChildOk(c, d, b, j + 1, Unknown, true, {});
      LooseArms(c, d, b, j + 2);
    }
  }

  // ---- reports stay inside the node they are about

  lemma {:induction false} WalkWithin(c: Ctx, nodes: seq<Node>, i: nat, known: Known, inTy: bool, moved: set<string>)
    requires i <= |nodes|
    ensures forall f | f in Walk(c, nodes, i, known, inTy, moved) :: f.pos in Positions(nodes[i..])
    decreases nodes, 2 * (|nodes| - i) + 1
  {
    if i < |nodes| {
      assert nodes[i..][1..] == nodes[i + 1..];
      BlockWithin(c, nodes, i, known, inTy, moved);
      WalkWithin(c, nodes, i + 1, known, inTy, MovedAfter(c, nodes[i], moved));
      LeafWithin(c, nodes, i, known, inTy, moved);
    }
  }

  lemma LeafWithin(c: Ctx, nodes: seq<Node>, i: nat, known: Known, inTy: bool, moved: set<string>)
    requires i < |nodes|
    ensures forall f | f in LeafFindings(c, nodes, i, known, inTy, moved) ::
      f.pos == nodes[i].pos || (CapAt(nodes, i) && WordAt(c, nodes, i + 1, "rq") && f.pos == nodes[i + 1].pos)
    ensures forall f | f in LeafFindings(c, nodes, i, known, inTy, moved) :: f.pos in Positions(nodes[i..])
  {
    if i + 1 < |nodes| {
      PositionsAt(nodes[i..], 1);
    }
    PositionsAt(nodes[i..], 0);
  }

  lemma {:induction false} BlockWithin(c: Ctx, nodes: seq<Node>, i: nat, known: Known, inTy: bool, moved: set<string>)
    requires i < |nodes|
    ensures forall f | f in BlockFindings(c, nodes, i, known, inTy, moved) :: f.pos in NodePositions(nodes[i])
    decreases nodes, 2 * (|nodes| - i)
  {
    if nodes[i].Blk? {
      var use := UseOf(c, nodes, i);
      if use == Arms {
        ArmWithin(c, nodes[i].nodes, 0, nodes[i].pos, known, inTy, moved);
      } else {
        WalkWithin(c, nodes[i].nodes, 0, InnerKnown(nodes, i, use, known), inTy || use == Try, InnerMoved(c, use, moved));
        assert nodes[i].nodes[0..] == nodes[i].nodes;
      }
    }
  }

  lemma {:induction false} ArmWithin(c: Ctx, arms: seq<Node>, j: nat, pos: nat, known: Known, inTy: bool, moved: set<string>)
    requires j <= |arms|
    ensures |arms| % 2 == 0 && j % 2 == 0 ==>
      forall f | f in ArmFindings(c, arms, j, pos, known, inTy, moved) ::
        f.pos in Positions(arms[j..]) || (f.pos == pos && f.Diag? && f.rule == BadArms)
    decreases arms, 2 * (|arms| - j) + 2
  {
    if |arms| % 2 == 0 && j % 2 == 0 && j < |arms| {
      assert arms[j..][1..] == arms[j + 1..];
      assert arms[j..][1..][1..] == arms[j + 2..];
      ArmWithin(c, arms, j + 2, pos, known, inTy, moved);
      PositionsAt(arms[j..], 0);
      PositionsAt(arms[j..], 1);
      if arms[j].Blk? && arms[j + 1].Blk? {
        WalkWithin(c, arms[j + 1].nodes, 0, known, inTy, moved);
        assert arms[j + 1].nodes[0..] == arms[j + 1].nodes;
      }
    }
  }

  // ---- what is reported is what may be relied on

  /** The capability check that the literal just before an `rq` reports on it. */
  ghost predicate Carried(c: Ctx, f: Finding, nodes: seq<Node>, i: nat, known: Known, inTy: bool) {
    CapAt(nodes, i - 1) && WordAt(c, nodes, i, "rq") && !inTy
    && f in Require(c, nodes[i - 1].cap, nodes[i].pos, known)
  }

  /** Every finding about the nodes from i on was made by walking them. */
  ghost predicate Reported(c: Ctx, d: set<Finding>, nodes: seq<Node>, i: nat, known: Known, inTy: bool, moved: set<string>)
    requires i <= |nodes|
  {
    && Distinct(nodes[i..])
    && forall f | f in d && f.pos in Positions(nodes[i..]) ::
         f in Walk(c, nodes, i, known, inTy, moved)
         || (i < |nodes| && f.pos == nodes[i].pos && Carried(c, f, nodes, i, known, inTy))
  }

  lemma SuffixStep(nodes: seq<Node>, i: nat)
    requires i < |nodes| && Distinct(nodes[i..])
    ensures Positions(nodes[i..]) == NodePositions(nodes[i]) + Positions(nodes[i + 1..])
    ensures NodePositions(nodes[i]) !! Positions(nodes[i + 1..])
    ensures Distinct(nodes[i + 1..]) && DistinctNode(nodes[i])
  {
    assert nodes[i..][1..] == nodes[i + 1..];
  }

  lemma ReportedLeaf(c: Ctx, d: set<Finding>, nodes: seq<Node>, i: nat, known: Known, inTy: bool, moved: set<string>)
    requires i < |nodes| && Reported(c, d, nodes, i, known, inTy, moved)
    ensures LeafOk(c, d, nodes, i, known, known.Unknown? || inTy, moved)
  {
    SuffixStep(nodes, i);
    WalkWithin(c, nodes, i + 1, known, inTy, MovedAfter(c, nodes[i], moved));
    forall f | f in d && f.pos == nodes[i].pos
      ensures Means(c, f, nodes, i, known, known.Unknown? || inTy, moved)
    {
      assert f !in Walk(c, nodes, i + 1, known, inTy, MovedAfter(c, nodes[i], moved));
      if f in BlockFindings(c, nodes, i, known, inTy, moved) {
        BlockOwn(c, nodes, i, known, inTy, moved, f);
      } else {
        if i + 1 < |nodes| {
          PositionsAt(nodes[i + 1..], 0);
        }
        LeafMeans(c, nodes, i, known, inTy, moved, f);
      }
    }
  }

  lemma LeafMeans(c: Ctx, nodes: seq<Node>, i: nat, known: Known, inTy: bool, moved: set<string>, f: Finding)
    requires i < |nodes| && f.pos == nodes[i].pos
    requires i + 1 < |nodes| ==> nodes[i + 1].pos != nodes[i].pos
    requires (known.Exact? && f == Runs(nodes[i].pos, known.caps))
      || f in LeafFindings(c, nodes, i, known, inTy, moved) || Carried(c, f, nodes, i, known, inTy)
    ensures Means(c, f, nodes, i, known, known.Unknown? || inTy, moved)
  {
  }

  /** A block's own position is reported for its arms only. */
  lemma BlockOwn(c: Ctx, nodes: seq<Node>, i: nat, known: Known, inTy: bool, moved: set<string>, f: Finding)
    requires i < |nodes| && DistinctNode(nodes[i])
    requires f in BlockFindings(c, nodes, i, known, inTy, moved) && f.pos == nodes[i].pos
    ensures f.Diag? && (f.rule == BadArms || f.rule == NotExhaustive)
  {
    var b := nodes[i].nodes;
    var use := UseOf(c, nodes, i);
    assert b[0..] == b;
    if use == Arms {
      ArmWithin(c, b, 0, nodes[i].pos, known, inTy, moved);
    } else {
      WalkWithin(c, b, 0, InnerKnown(nodes, i, use, known), inTy || use == Try, InnerMoved(c, use, moved));
    }
  }

  lemma ReportedChild(c: Ctx, d: set<Finding>, nodes: seq<Node>, i: nat, known: Known, inTy: bool, moved: set<string>)
    requires i < |nodes| && nodes[i].Blk? && Reported(c, d, nodes, i, known, inTy, moved)
    ensures forall f | f in d && f.pos in Positions(nodes[i].nodes) :: f in BlockFindings(c, nodes, i, known, inTy, moved)
  {
    SuffixStep(nodes, i);
    WalkWithin(c, nodes, i + 1, known, inTy, MovedAfter(c, nodes[i], moved));
  }

  lemma ReportedNext(c: Ctx, d: set<Finding>, nodes: seq<Node>, i: nat, known: Known, inTy: bool, moved: set<string>)
    requires i < |nodes| && Reported(c, d, nodes, i, known, inTy, moved)
    ensures Reported(c, d, nodes, i + 1, known, inTy, MovedAfter(c, nodes[i], moved))
  {
    SuffixStep(nodes, i);
    BlockWithin(c, nodes, i, known, inTy, moved);
    LeafWithin(c, nodes, i, known, inTy, moved);
    forall f | f in d && f.pos in Positions(nodes[i + 1..])
      ensures f in Walk(c, nodes, i + 1, known, inTy, MovedAfter(c, nodes[i], moved))
        || (i + 1 < |nodes| && f.pos == nodes[i + 1].pos && Carried(c, f, nodes, i + 1, known, inTy))
    {
    }
  }

  lemma {:induction false} WalkSafe(c: Ctx, d: set<Finding>, nodes: seq<Node>, i: nat, known: Known, inTy: bool, moved: set<string>)
    requires i <= |nodes| && Reported(c, d, nodes, i, known, inTy, moved)
    ensures Safe(c, d, nodes, i, known, known.Unknown? || inTy, moved)
    decreases nodes, 2 * (|nodes| - i) + 1
  {
    if i < |nodes| {
      ReportedLeaf(c, d, nodes, i, known, inTy, moved);
      ReportedNext(c, d, nodes, i, known, inTy, moved);
      WalkSafe(c, d, nodes, i + 1, known, inTy, MovedAfter(c, nodes[i], moved));
      if nodes[i].Blk? {
        SuffixStep(nodes, i);
        ReportedChild(c, d, nodes, i, known, inTy, moved);
        BlockSafe(c, d, nodes, i, known, inTy, moved);
      }
    }
  }

  lemma {:induction false} BlockSafe(c: Ctx, d: set<Finding>, nodes: seq<Node>, i: nat, known: Known, inTy: bool, moved: set<string>)
    requires i < |nodes| && nodes[i].Blk? && DistinctNode(nodes[i])
    requires forall f | f in d && f.pos in Positions(nodes[i].nodes) :: f in BlockFindings(c, nodes, i, known, inTy, moved)
    ensures ChildOk(c, d, nodes, i, known, known.Unknown? || inTy, moved)
    decreases nodes, 2 * (|nodes| - i)
  {
    var b := nodes[i].nodes;
    assert b[0..] == b;
    var use := UseOf(c, nodes, i);
    if use == Arms {
      var onResult := WordAt(c, nodes, i - 1, "ty") && BlkAt(nodes, i - 2);
      ArmsSafe(c, d, b, nodes[i].pos, known, inTy, onResult, moved);
    } else {
      var k := InnerKnown(nodes, i, use, known);
      WalkSafe(c, d, b, 0, k, inTy || use == Try, InnerMoved(c, use, moved));
    }
  }

  lemma {:induction false} ArmsSafe(c: Ctx, d: set<Finding>, arms: seq<Node>, pos: nat, known: Known, inTy: bool,
                                    onResult: bool, moved: set<string>)
    requires Distinct(arms) && pos !in Positions(arms)
    requires forall f | f in d && f.pos in Positions(arms) :: f in ArmsFindings(c, arms, pos, known, inTy, onResult, moved)
    ensures SafeArms(c, d, arms, 0, known, known.Unknown? || inTy, moved)
    ensures known.Unknown? && moved == {} ==> Safe(c, d, arms, 0, Unknown, true, {})
    decreases arms, 2 * |arms| + 3
  {
    var ty := known.Unknown? || inTy;
    assert arms[0..] == arms;
    if |arms| % 2 == 0 {
      assert ArmsReported(c, d, arms, 0, pos, known, inTy, moved);
    }
    forall k | 0 <= k < |arms| && arms[k].Blk?
      ensures Safe(c, d, arms[k].nodes, 0, known, ty, moved)
    {
      DistinctNodeAt(arms, k);
      PositionsAt(arms, k);
      if |arms| % 2 == 0 {
        ArmChild(c, d, arms, 0, k, pos, known, inTy, moved);
      }
      assert arms[k].nodes[0..] == arms[k].nodes;
      WalkSafe(c, d, arms[k].nodes, 0, known, inTy, moved);
    }
    AllArmsSafe(c, d, arms, 0, known, ty, moved);
    if known.Unknown? && moved == {} {
      forall k | 0 <= k < |arms|
        ensures LeafOk(c, d, arms, k, Unknown, true, {})
      {
        DistinctNodeAt(arms, k);
        PositionsAt(arms, k);
        if |arms| % 2 == 0 {
          ArmOwn(c, d, arms, 0, k, pos, known, inTy, moved);
        }
      }
      ArmsAsCode(c, d, arms, 0, {});
    }
  }

  ghost predicate ArmsReported(c: Ctx, d: set<Finding>, arms: seq<Node>, j: nat, pos: nat, known: Known, inTy: bool,
                               moved: set<string>)
  {
    && |arms| % 2 == 0 && j % 2 == 0 && j <= |arms|
    && Distinct(arms[j..]) && pos !in Positions(arms[j..])
    && forall f | f in d && f.pos in Positions(arms[j..]) :: f in ArmFindings(c, arms, j, pos, known, inTy, moved)
  }

  lemma ArmsNext(c: Ctx, d: set<Finding>, arms: seq<Node>, j: nat, pos: nat, known: Known, inTy: bool, moved: set<string>)
    requires ArmsReported(c, d, arms, j, pos, known, inTy, moved) && j < |arms|
    ensures ArmsReported(c, d, arms, j + 2, pos, known, inTy, moved)
  {
    SuffixStep(arms, j);
    SuffixStep(arms, j + 1);
    if arms[j].Blk? && arms[j + 1].Blk? {
      WalkWithin(c, arms[j + 1].nodes, 0, known, inTy, moved);
      assert arms[j + 1].nodes[0..] == arms[j + 1].nodes;
    }
  }

  /** What is reported inside the block at k was reported by walking it as a body. */
  lemma {:induction false} ArmChild(c: Ctx, d: set<Finding>, arms: seq<Node>, j: nat, k: nat, pos: nat, known: Known,
                                    inTy: bool, moved: set<string>)
    requires ArmsReported(c, d, arms, j, pos, known, inTy, moved) && j <= k < |arms| && arms[k].Blk?
    ensures forall f | f in d && f.pos in Positions(arms[k].nodes) :: f in Walk(c, arms[k].nodes, 0, known, inTy, moved)
    decreases |arms| - j
  {
    if k >= j + 2 {
      ArmsNext(c, d, arms, j, pos, known, inTy, moved);
      ArmChild(c, d, arms, j + 2, k, pos, known, inTy, moved);
    } else {
      SuffixStep(arms, j);
      SuffixStep(arms, j + 1);
      ArmWithin(c, arms, j + 2, pos, known, inTy, moved);
      if arms[j].Blk? && arms[j + 1].Blk? {
        WalkWithin(c, arms[j + 1].nodes, 0, known, inTy, moved);
        assert arms[j + 1].nodes[0..] == arms[j + 1].nodes;
      }
    }
  }

  lemma {:induction false} ArmOwn(c: Ctx, d: set<Finding>, arms: seq<Node>, j: nat, k: nat, pos: nat, known: Known,
                                  inTy: bool, moved: set<string>)
    requires ArmsReported(c, d, arms, j, pos, known, inTy, moved) && j <= k < |arms|
    ensures forall f | f in d && f.pos == arms[k].pos :: f.Diag? && f.rule == BadArms
    decreases |arms| - j
  {
    if k >= j + 2 {
      ArmsNext(c, d, arms, j, pos, known, inTy, moved);
      ArmOwn(c, d, arms, j + 2, k, pos, known, inTy, moved);
    } else {
      SuffixStep(arms, j);
      SuffixStep(arms, j + 1);
      ArmWithin(c, arms, j + 2, pos, known, inTy, moved);
      if arms[j].Blk? && arms[j + 1].Blk? {
        WalkWithin(c, arms[j + 1].nodes, 0, known, inTy, moved);
        assert arms[j + 1].nodes[0..] == arms[j + 1].nodes;
      }
    }
  }

  lemma {:induction false} AllArmsSafe(c: Ctx, d: set<Finding>, arms: seq<Node>, j: nat, known: Known, inTy: bool,
                                       moved: set<string>)
    requires forall k | 0 <= k < |arms| && arms[k].Blk? :: Safe(c, d, arms[k].nodes, 0, known, inTy, moved)
    ensures SafeArms(c, d, arms, j, known, inTy, moved)
    decreases |arms| - j
  {
    if j + 1 < |arms| {
      AllArmsSafe(c, d, arms, j + 2, known, inTy, moved);
    }
  }

  /** Arms that escape may be run as code: their bodies are safe from anywhere. */
  lemma {:induction false} ArmsAsCode(c: Ctx, d: set<Finding>, arms: seq<Node>, i: nat, m: set<string>)
    requires i <= |arms|
    requires forall k | 0 <= k < |arms| && arms[k].Blk? :: Loose(c, d, arms[k].nodes)
    requires forall k | 0 <= k < |arms| :: LeafOk(c, d, arms, k, Unknown, true, {})
    ensures Safe(c, d, arms, i, Unknown, true, m)
    decreases |arms| - i
  {
    if i < |arms| {
      assert LeafOk(c, d, arms, i, Unknown, true, {});
      forall f | f in d && f.pos == arms[i].pos
        ensures Means(c, f, arms, i, Unknown, true, m)
      {
        assert Means(c, f, arms, i, Unknown, true, {});
      }
      if arms[i].Blk? {
        LooseChild(c, d, arms, i, m);
      }
      ArmsAsCode(c, d, arms, i + 1, MovedAfter(c, arms[i], m));
    }
  }

  lemma LooseChild(c: Ctx, d: set<Finding>, nodes: seq<Node>, i: nat, m: set<string>)
    requires i < |nodes| && nodes[i].Blk? && Loose(c, d, nodes[i].nodes)
    ensures ChildOk(c, d, nodes, i, Unknown, true, m)
  {
    var b := nodes[i].nodes;
    LooseArms(c, d, b, 0);
    ArmsMono(c, d, b, 0, Unknown, true, {}, m);
    SafeMono(c, d, b, 0, Unknown, true, {}, InnerMoved(c, UseOf(c, nodes, i), m));
  }
}
