// A match that the checker does not come to, and that refuses its value although
// nothing is reported of it: it stands in code that is written as the arms of
// another match and runs as an arm of a third.

module CheckerEscapes {
  import opened Syntax
  import opened Machine
  import opened CheckerModel
  import opened CheckerLimits

  /** [ [1] [ [@] ty [ [ok] [] ] ?? ] ?? 2 ] 1 \ ?? */
  const FAULTS: seq<Node> := [Op("@", 6)]
  const OK_ONLY: seq<Node> := [Blk([Name("ok", 10)], 9), Blk([], 11)]
  const HANDLES: seq<Node> := [Blk(FAULTS, 5), Name("ty", 7), Blk(OK_ONLY, 8), Op("??", 12)]
  const MIXED: seq<Node> := [Blk([Int(1, 3)], 2), Blk(HANDLES, 4), Op("??", 13), Int(2, 14)]
  const UNJUDGED: seq<Node> := [Blk(MIXED, 1), Int(1, 15), Op("\\", 16), Op("??", 17)]

  /** A node of which nothing is reported but where it was walked. */
  ghost predicate Quiet(c: Ctx, nodes: seq<Node>, i: nat, known: Known)
    requires i < |nodes|
  {
    LeafFindings(c, nodes, i, known, false, {}) == [] && BlockFindings(c, nodes, i, known, false, {}) == []
    && MovedAfter(c, nodes[i], {}) == {}
  }

  lemma QuietStep(c: Ctx, nodes: seq<Node>, i: nat, known: Known, f: Finding)
    requires i < |nodes| && Quiet(c, nodes, i, known) && f.Diag? && f in Walk(c, nodes, i, known, false, {})
    ensures f in Walk(c, nodes, i + 1, known, false, {})
  {
  }

  lemma Literal(c: Ctx, nodes: seq<Node>, i: nat, known: Known)
    requires i < |nodes| && (nodes[i].Int? || nodes[i].Op?)
    ensures Quiet(c, nodes, i, known)
  {
  }

  lemma MixedWalk(c: Ctx, p: seq<Node>, f: Finding)
    requires |p| == 4 && p[0] == Blk([Int(1, 3)], 2) && p[1] == Blk(HANDLES, 4) && p[2] == Op("??", 13) && p[3] == Int(2, 14)
    requires f.Diag? && f in Walk(c, p, 0, Unknown, false, {})
    ensures f == Diag(4, BadArms)
  {
    MixedPattern(c, p);
    QuietStep(c, p, 0, Unknown, f);
    assert UseOf(c, p, 1) == Arms && MovedAfter(c, p[1], {}) == {};
    HandlesArms(c, HANDLES, f);
    Tail(c, p, 2, Unknown, f);
  }

  lemma {:induction false} Tail(c: Ctx, nodes: seq<Node>, i: nat, known: Known, f: Finding)
    requires i <= |nodes| && f.Diag? && forall k :: i <= k < |nodes| ==> nodes[k].Int? || nodes[k].Op?
    ensures f !in Walk(c, nodes, i, known, false, {})
    decreases |nodes| - i
  {
    if i < |nodes| {
      Literal(c, nodes, i, known);
      Tail(c, nodes, i + 1, known, f);
    }
  }

  lemma MixedPattern(c: Ctx, p: seq<Node>)
    requires |p| == 4 && p[0] == Blk([Int(1, 3)], 2) && p[1].Blk? && p[2] == Op("??", 13)
    ensures Quiet(c, p, 0, Unknown)
  {
    assert UseOf(c, p, 0) == Escapes;
    var one := [Int(1, 3)];
    Literal(c, one, 0, Unknown);
    assert Walk(c, one, 0, Unknown, false, {}) == [];
  }

  lemma HandlesArms(c: Ctx, p: seq<Node>, f: Finding)
    requires |p| == 4 && !p[1].Blk? && !p[3].Blk?
    ensures f in ArmsFindings(c, p, 4, Unknown, false, false, {}) ==> f == Diag(4, BadArms)
  {
    assert ArmFindings(c, p, 4, 4, Unknown, false, {}) == [];
    assert ArmFindings(c, p, 2, 4, Unknown, false, {}) == [Diag(4, BadArms)];
    assert ArmFindings(c, p, 0, 4, Unknown, false, {}) == [Diag(4, BadArms)] + [Diag(4, BadArms)];
  }

  /** The arms at 8, the match at 12 and the patterns in between are not reported. */
  lemma UnjudgedIsSilent(f: Finding)
    requires f in Check(UNJUDGED)
    ensures f == Diag(4, BadArms)
  {
    DiagsOfIn(Findings(UNJUDGED, true), f);
    UnjudgedWalk(Context(UNJUDGED, true), UNJUDGED, f);
  }

  lemma UnjudgedWalk(c: Ctx, p: seq<Node>, f: Finding)
    requires |p| == 4 && p[0] == Blk(MIXED, 1) && p[1] == Int(1, 15) && p[2] == Op("\\", 16) && p[3] == Op("??", 17)
    requires f.Diag? && f in Walk(c, p, 0, Exact({}), false, {})
    ensures f == Diag(4, BadArms)
  {
    var e := Exact({});
    assert UseOf(c, p, 0) == Escapes && MovedAfter(c, p[0], {}) == {};
    Tail(c, p, 1, e, f);
    MixedWalk(c, MIXED, f);
  }

  lemma AttemptFails(st: State, fuel: nat)
    requires st.depth < MAX_INVOKE_DEPTH
    ensures var r := ExecTry(FAULTS, st, fuel);
      r.status.Ran? && r.st.stack == st.stack + [VRes(false, VStr("STACK_UNDERFLOW"))] && r.st.depth == st.depth
      && r.st.env == st.env
  {
    var s := st.(stack := [], depth := st.depth + 1);
    assert ExecOp("@", s, fuel) == Fail("STACK_UNDERFLOW", s);
    assert Exec(FAULTS[0], s, fuel) == Fail("STACK_UNDERFLOW", s);
    Stop(FAULTS, 0, s, fuel);
  }

  /** What a node of a run has seen, the run has. */
  lemma NodeSeen(nodes: seq<Node>, i: nat, st: State, fuel: nat)
    requires i < |nodes|
    ensures ExecNode(nodes[i], st, fuel).seen <= ExecSeq(nodes, i, st, fuel).seen
    ensures Refusal(nodes[i], st) <= ExecSeq(nodes, i, st, fuel).seen
    ensures Exec(nodes[i], st, fuel).seen <= ExecSeq(nodes, i, st, fuel).seen
  {
  }

  lemma HandlesRefuses(p: seq<Node>, st: State, fuel: nat)
    requires |p| == 4 && p[0] == Blk(FAULTS, 5) && p[1] == Name("ty", 7) && p[2] == Blk(OK_ONLY, 8) && p[3] == Op("??", 12)
    requires st.env == map[] && st.depth < MAX_INVOKE_DEPTH
    ensures Refuse(12, "NO_MATCH") in ExecSeq(p, 0, st, fuel).seen
  {
    var s1 := Push(st, VBlk(FAULTS));
    assert Pop(s1, 1) == st;
    AttemptFails(st, fuel);
    assert Exec(p[1], s1, fuel) == ExecWord("ty", s1, fuel) == ExecTry(FAULTS, st, fuel);
    var s2 := ExecTry(FAULTS, st, fuel).st;
    var s3 := Push(s2, VBlk(OK_ONLY));
    OkOnly(Top(s3, 2));
    assert Refusal(p[3], s3) == {Refuse(12, "NO_MATCH")};
    NodeSeen(p, 3, s3, fuel);
    Go(p, 2, s2, fuel, s3);
    Go(p, 1, s1, fuel, s2);
    Go(p, 0, st, fuel, s1);
  }

  lemma OkOnly(v: Value)
    requires v.VRes? && !v.ok
    ensures Choose(OK_ONLY, 0, v) == Refused("NO_MATCH")
  {
    assert OK_ONLY[0].nodes == [Name("ok", 10)];
    assert Choose(OK_ONLY, 2, v) == Refused("NO_MATCH");
  }

  /** Yet the match at 12 refuses what `ty` left. */
  lemma UnjudgedRefuses(fuel: nat)
    ensures Refuse(12, "NO_MATCH") in Run(UNJUDGED, fuel).seen
  {
    UnjudgedRuns(UNJUDGED, BEGIN, fuel);
  }

  lemma UnjudgedRuns(p: seq<Node>, s0: State, fuel: nat)
    requires |p| == 4 && p[0] == Blk(MIXED, 1) && p[1] == Int(1, 15) && p[2] == Op("\\", 16) && p[3] == Op("??", 17)
    requires s0 == BEGIN
    ensures Refuse(12, "NO_MATCH") in ExecSeq(p, 0, s0, fuel).seen
  {
    var s1 := Push(s0, VBlk(MIXED));
    var s2 := Push(s1, VInt(1));
    var s3 := s2.(stack := [VInt(1), VBlk(MIXED)]);
    Swapped(s2, s3, fuel);
    MixedRuns(MIXED, s3, fuel);
    assert Exec(p[3], s3, fuel) == ExecOp("??", s3, fuel);
    NodeSeen(p, 3, s3, fuel);
    assert Exec(p[2], s2, fuel) == ExecOp("\\", s2, fuel);
    Go(p, 2, s2, fuel, s3);
    Go(p, 1, s1, fuel, s2);
    Go(p, 0, s0, fuel, s1);
  }

  lemma Swapped(s2: State, s3: State, fuel: nat)
    requires s2.stack == [VBlk(MIXED), VInt(1)] && s3 == s2.(stack := [VInt(1), VBlk(MIXED)])
    ensures ExecOp("\\", s2, fuel) == Ok(s3)
  {
    assert s2.stack[..0] + [VInt(1), VBlk(MIXED)] == s3.stack;
  }

  lemma MixedRuns(p: seq<Node>, s3: State, fuel: nat)
    requires |p| == 4 && p[0] == Blk([Int(1, 3)], 2) && p[1] == Blk(HANDLES, 4)
    requires s3.stack == [VInt(1), VBlk(p)] && s3.env == map[] && s3.depth == 0
    ensures Refuse(12, "NO_MATCH") in ExecOp("??", s3, fuel).seen
  {
    var st := Pop(s3, 2);
    assert p[0].nodes == [Int(1, 3)];
    assert Choose(p, 0, VInt(1)) == Chosen(HANDLES, VInt(1));
    assert ExecOp("??", s3, fuel) == ExecMatch(p, VInt(1), st, fuel) == Invoke(HANDLES, Push(st, VInt(1)), fuel);
    HandlesRefuses(HANDLES, Push(st, VInt(1)).(depth := 1), fuel);
  }
}
