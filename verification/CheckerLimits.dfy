// Three programs that the checker reports although no run of them is at fault:
// the reasons for the conditions on its promises.

module CheckerLimits {
  import opened Syntax
  import opened Machine
  import opened CheckerModel

  /** One node of a run, then the rest of it. */
  lemma Go(nodes: seq<Node>, i: nat, st: State, fuel: nat, st': State)
    requires i < |nodes| && Exec(nodes[i], st, fuel).status.Ran? && Exec(nodes[i], st, fuel).st == st'
    ensures ExecSeq(nodes, i, st, fuel).status == ExecSeq(nodes, i + 1, st', fuel).status
    ensures ExecSeq(nodes, i, st, fuel).st == ExecSeq(nodes, i + 1, st', fuel).st
    ensures ExecSeq(nodes, i + 1, st', fuel).seen + Exec(nodes[i], st, fuel).seen + {Leave(nodes[i].pos)}
         <= ExecSeq(nodes, i, st, fuel).seen
  {
  }

  lemma Stop(nodes: seq<Node>, i: nat, st: State, fuel: nat)
    requires i < |nodes| && !Exec(nodes[i], st, fuel).status.Ran?
    ensures ExecSeq(nodes, i, st, fuel).status == Exec(nodes[i], st, fuel).status
  {
  }

  /** What is reported further on in a sequence is reported. */
  lemma Later(c: Ctx, nodes: seq<Node>, i: nat, known: Known, moved: set<string>, f: Finding)
    requires i < |nodes| && f in Walk(c, nodes, i + 1, known, false, MovedAfter(c, nodes[i], moved))
    ensures f in Walk(c, nodes, i, known, false, moved)
  {
  }

  /** With nothing moved, nodes that move nothing leave it so. */
  lemma {:induction false} Earlier(c: Ctx, nodes: seq<Node>, i: nat, j: nat, known: Known, f: Finding)
    requires i <= j <= |nodes| && forall m :: i <= m < j ==> !nodes[m].Move?
    requires f in Walk(c, nodes, j, known, false, {})
    ensures f in Walk(c, nodes, i, known, false, {})
    decreases j - i
  {
    if i < j {
      Earlier(c, nodes, i + 1, j, known, f);
      EarlierByOne(c, nodes, i, known, f);
    }
  }

  lemma EarlierByOne(c: Ctx, nodes: seq<Node>, i: nat, known: Known, f: Finding)
    requires i < |nodes| && !nodes[i].Move?
    requires f in Walk(c, nodes, i + 1, known, false, {})
    ensures f in Walk(c, nodes, i, known, false, {})
  {
    assert MovedAfter(c, nodes[i], {}) == {};
    Later(c, nodes, i, known, {}, f);
  }

  lemma NowMoved(c: Ctx, node: Node)
    requires node.Move? && node.name in c.bound
    ensures MovedAfter(c, node, {}) == {node.name}
  {
  }

  lemma Inside(c: Ctx, nodes: seq<Node>, i: nat, known: Known, moved: set<string>, f: Finding)
    requires i < |nodes| && f in BlockFindings(c, nodes, i, known, false, moved)
    ensures f in Walk(c, nodes, i, known, false, moved)
  {
  }

  /** `c [ `c rq ] gr  1 :gr -- `gr` is bound later, so the checker takes it for
      a binding throughout; the machine still runs the word. */
  const REQUIRE: seq<Node> := [Cap("c", 2), Name("rq", 3)]
  const LATE_GR: seq<Node> := [Cap("c", 0), Blk(REQUIRE, 1), Name("gr", 4), Int(1, 5), Bind("gr", 6)]

  lemma LateGrContext()
    ensures Binds(LATE_GR) == {"gr"} && !UsesTy({"gr"}, LATE_GR)
  {
    var t4 := [Bind("gr", 6)];
    var t3 := [Int(1, 5)] + t4;
    var t2 := [Name("gr", 4)] + t3;
    var t1 := [Blk(REQUIRE, 1)] + t2;
    assert t4[1..] == [] && t3[1..] == t4 && t2[1..] == t3 && t1[1..] == t2 && LATE_GR[1..] == t1;
    assert REQUIRE[1..] == [Name("rq", 3)] && REQUIRE[1..][1..] == [];
    assert Binds(REQUIRE) == {} && !UsesTy({"gr"}, REQUIRE);
    assert Binds(t3) == {"gr"} && !UsesTy({"gr"}, t3);
    assert Binds(t2) == {"gr"} && !UsesTy({"gr"}, t2);
    assert Binds(t1) == {"gr"} && !UsesTy({"gr"}, t1);
  }

  lemma LateGrIsReported()
    ensures Diag(3, NeverGranted) in Check(LATE_GR)
  {
    var c := Context(LATE_GR, true);
    LateGrContext();
    var f := Diag(3, NeverGranted);
    assert f in LeafFindings(c, REQUIRE, 0, Unknown, false, {});
    assert f in Walk(c, REQUIRE, 0, Unknown, false, {});
    assert BlockFindings(c, LATE_GR, 1, Exact({}), false, {}) == Walk(c, REQUIRE, 0, Unknown, false, {});
    assert f in Walk(c, LATE_GR, 1, Exact({}), false, {});
    DiagsOfIn(Findings(LATE_GR, true), f);
  }

  lemma RequireGranted(st: State, fuel: nat)
    requires st.env == map[] && st.depth == 0
    ensures var r := ExecGrant("c", REQUIRE, st, fuel);
      r.status == Ran && r.st == st && Leave(3) in r.seen
  {
    var held := st.(caps := st.caps + {"c"}, depth := 1);
    var s := Push(held, VCap("c"));
    assert Exec(REQUIRE[1], s, fuel) == ExecWord("rq", s, fuel);
    assert Pop(s, 1) == held;
    Go(REQUIRE, 0, held, fuel, s);
    Go(REQUIRE, 1, s, fuel, held);
    assert st.caps + {"c"} == held.caps;
    assert "c" !in st.caps ==> held.caps - {"c"} == st.caps;
  }

  lemma LateGrSucceeds(fuel: nat)
    ensures Run(LATE_GR, fuel).status == Ran && Leave(3) in Run(LATE_GR, fuel).seen
  {
    var p, s0 := LATE_GR, BEGIN;
    var s1 := Push(s0, VCap("c"));
    var s2 := Push(s1, VBlk(REQUIRE));
    RequireGranted(s0, fuel);
    assert Pop(s2, 2) == s0;
    assert Exec(p[2], s2, fuel) == ExecWord("gr", s2, fuel) == ExecGrant("c", REQUIRE, s0, fuel);
    Go(p, 0, s0, fuel, s1);
    Go(p, 1, s1, fuel, s2);
    Go(p, 2, s2, fuel, s0);
    BindLast(p, s0, fuel);
  }

  lemma BindLast(p: seq<Node>, st: State, fuel: nat)
    requires |p| == 5 && p[3] == Int(1, 5) && p[4] == Bind("gr", 6)
    ensures ExecSeq(p, 3, st, fuel).status == Ran
  {
    var s := Push(st, VInt(1));
    assert Pop(s, 1) == st;
    Go(p, 3, st, fuel, s);
    Go(p, 4, s, fuel, st.(env := st.env["gr" := VInt(1)]));
  }

  // ---- a `;` condition inherits the marks of its first evaluation only

  /** 0 :f 1 :x 'x , [ f [ x ] [ 1 ] ? @ ] [ 0 :x 1 :f ] ; -- the body rebinds x
      before the condition first takes the branch that reads it. */
  const READ_X: seq<Node> := [Name("x", 9)]
  const ONE: seq<Node> := [Int(1, 11)]
  const COND: seq<Node> := [Name("f", 7), Blk(READ_X, 8), Blk(ONE, 10), Op("?", 12), Op("@", 13)]
  const BODY: seq<Node> := [Int(0, 15), Bind("x", 16), Int(1, 17), Bind("f", 18)]
  const LOOP: seq<Node> := [
    Int(0, 0), Bind("f", 1), Int(1, 2), Bind("x", 3), Move("x", 4), Op(",", 5),
    Blk(COND, 6), Blk(BODY, 14), Op(";", 19)]

  lemma BindsAt(nodes: seq<Node>, i: nat)
    requires i < |nodes| && nodes[i].Bind?
    ensures nodes[i].name in Binds(nodes)
  {
    if i > 0 {
      BindsAt(nodes[1..], i - 1);
    }
  }

  lemma LoopIsReported()
    ensures Diag(9, MovedOut) in Check(LOOP)
  {
    BindsAt(LOOP, 3);
    LoopWalk(Context(LOOP, true), LOOP, Exact({}));
    DiagsOfIn(Findings(LOOP, true), Diag(9, MovedOut));
  }

  lemma LoopWalk(c: Ctx, p: seq<Node>, k: Known)
    requires c.inherit && "x" in c.bound
    requires |p| == 9 && !p[0].Op? && p[0].Int? && p[1] == Bind("f", 1) && p[2].Int? && p[3] == Bind("x", 3)
    requires p[4] == Move("x", 4) && p[5] == Op(",", 5)
    requires p[6] == Blk(COND, 6) && p[7] == Blk(BODY, 14) && p[8] == Op(";", 19)
    ensures Diag(9, MovedOut) in Walk(c, p, 0, k, false, {})
  {
    var f := Diag(9, MovedOut);
    LoopWalkEnd(c, p, k);
    NowMoved(c, p[4]);
    Later(c, p, 4, k, {}, f);
    Earlier(c, p, 0, 4, k, f);
  }

  lemma LoopWalkEnd(c: Ctx, p: seq<Node>, k: Known)
    requires c.inherit && "x" in c.bound && |p| == 9 && p[5] == Op(",", 5)
    requires p[6] == Blk(COND, 6) && p[7] == Blk(BODY, 14) && p[8] == Op(";", 19)
    ensures Diag(9, MovedOut) in Walk(c, p, 5, k, false, {"x"})
  {
    var f := Diag(9, MovedOut);
    CondIsReported(c, k);
    assert UseOf(c, p, 6) == LoopCond;
    Inside(c, p, 6, k, {"x"}, f);
    Later(c, p, 5, k, {"x"}, f);
  }

  lemma CondIsReported(c: Ctx, k: Known)
    requires "x" in c.bound
    ensures Diag(9, MovedOut) in Walk(c, COND, 0, k, false, {"x"})
  {
    var f, p := Diag(9, MovedOut), COND;
    assert f in LeafFindings(c, READ_X, 0, k, false, {"x"});
    assert f in Walk(c, READ_X, 0, k, false, {"x"});
    assert p[1].nodes == READ_X && UseOf(c, p, 1) == Inline;
    Inside(c, p, 1, k, {"x"}, f);
    Later(c, p, 0, k, {"x"}, f);
  }

  lemma CondRuns(st: State, fuel: nat)
    requires st.depth == 0 && st.stack == [] && "f" in st.env && st.env["f"].VInt?
    requires st.env["f"].i != 0 ==> "x" in st.env
    ensures var r := Invoke(COND, st, fuel);
      && r.status == Ran
      && r.st == Push(st, if st.env["f"].i != 0 then st.env["x"] else VInt(1))
      && (st.env["f"].i != 0 ==> Leave(9) in r.seen)
  {
    var s0 := st.(depth := 1);
    CondSteps(COND, s0, fuel);
    assert Invoke(COND, st, fuel).st == ExecSeq(COND, 0, s0, fuel).st.(depth := 0);
  }

  lemma CondSteps(p: seq<Node>, s0: State, fuel: nat)
    requires p == COND && s0.depth == 1 && "f" in s0.env && s0.env["f"].VInt?
    requires s0.env["f"].i != 0 ==> "x" in s0.env
    ensures var r := ExecSeq(p, 0, s0, fuel);
      && r.status == Ran
      && r.st == Push(s0, if s0.env["f"].i != 0 then s0.env["x"] else VInt(1))
      && (s0.env["f"].i != 0 ==> Leave(9) in r.seen)
  {
    var flag := s0.env["f"];
    var s1 := Push(s0, flag);
    var s2 := Push(s1, VBlk(READ_X));
    SelectRuns(p, s0, flag, fuel);
    Go(p, 1, s1, fuel, s2);
    Go(p, 0, s0, fuel, s1);
  }

  lemma SelectRuns(p: seq<Node>, s0: State, flag: Value, fuel: nat)
    requires |p| == 5 && p[2] == Blk(ONE, 10) && p[3] == Op("?", 12) && p[4] == Op("@", 13) && s0.depth == 1
    requires flag.VInt? && (flag.i != 0 ==> "x" in s0.env)
    ensures var r := ExecSeq(p, 2, Push(Push(s0, flag), VBlk(READ_X)), fuel);
      && r.status == Ran
      && r.st == Push(s0, if flag.i != 0 then s0.env["x"] else VInt(1))
      && (flag.i != 0 ==> Leave(9) in r.seen)
  {
    var s2 := Push(Push(s0, flag), VBlk(READ_X));
    var s3 := Push(s2, VBlk(ONE));
    var branch := if flag.i != 0 then READ_X else ONE;
    assert Pop(s3, 3) == s0;
    assert Exec(p[3], s3, fuel) == ExecOp("?", s3, fuel);
    BranchRuns(p, s0, branch, fuel);
    Go(p, 3, s3, fuel, Push(s0, VBlk(branch)));
    Go(p, 2, s2, fuel, s3);
  }

  lemma BranchRuns(p: seq<Node>, s0: State, branch: seq<Node>, fuel: nat)
    requires |p| == 5 && p[4] == Op("@", 13) && s0.depth == 1
    requires branch == ONE || (branch == READ_X && "x" in s0.env)
    ensures var r := ExecSeq(p, 4, Push(s0, VBlk(branch)), fuel);
      && r.status == Ran
      && r.st == Push(s0, if branch == READ_X then s0.env["x"] else VInt(1))
      && (branch == READ_X ==> Leave(9) in r.seen)
  {
    var s4 := Push(s0, VBlk(branch));
    var s5 := Push(s0, if branch == READ_X then s0.env["x"] else VInt(1));
    assert Pop(s4, 1) == s0;
    Go(branch, 0, s0.(depth := 2), fuel, s5.(depth := 2));
    assert Exec(p[4], s4, fuel) == ExecOp("@", s4, fuel) == Invoke(branch, s0, fuel);
    Go(p, 4, s4, fuel, s5);
  }

  lemma BodyRuns(st: State, fuel: nat)
    requires st.depth == 0
    ensures var r := Invoke(BODY, st, fuel);
      r.status == Ran && r.st == st.(env := st.env["x" := VInt(0)]["f" := VInt(1)])
  {
    var s0 := st.(depth := 1);
    var s1 := s0.(env := s0.env["x" := VInt(0)]);
    var s2 := s1.(env := s1.env["f" := VInt(1)]);
    assert Pop(Push(s0, VInt(0)), 1) == s0 && Pop(Push(s1, VInt(1)), 1) == s1;
    Go(BODY, 3, Push(s1, VInt(1)), fuel, s2);
    Go(BODY, 2, s1, fuel, Push(s1, VInt(1)));
    Go(BODY, 1, Push(s0, VInt(0)), fuel, s1);
    Go(BODY, 0, s0, fuel, Push(s0, VInt(0)));
  }

  lemma WhileRuns(st: State, fuel: nat)
    requires st.depth == 0 && st.stack == [] && "f" in st.env && st.env["f"] == VInt(0)
    ensures var r := While(COND, BODY, st, fuel + 1);
      r.status == Ran && Leave(9) in r.seen
  {
    CondRuns(st, fuel + 1);
    BodyRuns(st, fuel + 1);
    var r := Invoke(COND, st, fuel + 1);
    assert Pop(r.st, 1) == st;
    var s := st.(env := st.env["x" := VInt(0)]["f" := VInt(1)]);
    CondRuns(s, fuel);
    assert Top(Invoke(COND, s, fuel).st, 1) == VInt(0);
    assert While(COND, BODY, s, fuel).status == Ran;
    assert Leave(9) in While(COND, BODY, s, fuel).seen;
  }

  /** The reported name resolves, and the whole program runs. */
  lemma LoopSucceeds(fuel: nat)
    ensures Run(LOOP, fuel + 1).status == Ran && Leave(9) in Run(LOOP, fuel + 1).seen
  {
    LoopStart(LOOP, BEGIN, fuel);
  }

  lemma LoopStart(p: seq<Node>, s0: State, fuel: nat)
    requires |p| == 9 && p[0] == Int(0, 0) && p[1] == Bind("f", 1) && p[2] == Int(1, 2) && p[3] == Bind("x", 3)
    requires p[4] == Move("x", 4) && p[5] == Op(",", 5)
    requires p[6] == Blk(COND, 6) && p[7] == Blk(BODY, 14) && p[8] == Op(";", 19)
    requires s0 == BEGIN
    ensures ExecSeq(p, 0, s0, fuel + 1).status == Ran && Leave(9) in ExecSeq(p, 0, s0, fuel + 1).seen
  {
    LoopMiddle(p, s0.(env := s0.env["f" := VInt(0)]), fuel);
    SetF(p, s0, fuel + 1);
  }

  lemma SetF(p: seq<Node>, s0: State, n: nat)
    requires |p| == 9 && p[0] == Int(0, 0) && p[1] == Bind("f", 1)
    ensures var s1 := s0.(env := s0.env["f" := VInt(0)]);
      && ExecSeq(p, 0, s0, n).status == ExecSeq(p, 2, s1, n).status
      && ExecSeq(p, 2, s1, n).seen <= ExecSeq(p, 0, s0, n).seen
  {
    var s1 := s0.(env := s0.env["f" := VInt(0)]);
    assert Pop(Push(s0, VInt(0)), 1) == s0;
    Go(p, 1, Push(s0, VInt(0)), n, s1);
    Go(p, 0, s0, n, Push(s0, VInt(0)));
  }

  lemma LoopMiddle(p: seq<Node>, s1: State, fuel: nat)
    requires |p| == 9 && p[2] == Int(1, 2) && p[3] == Bind("x", 3) && p[4] == Move("x", 4) && p[5] == Op(",", 5)
    requires p[6] == Blk(COND, 6) && p[7] == Blk(BODY, 14) && p[8] == Op(";", 19)
    requires s1.depth == 0 && s1.stack == [] && "f" in s1.env && s1.env["f"] == VInt(0) && "x" !in s1.env
    ensures ExecSeq(p, 2, s1, fuel + 1).status == Ran && Leave(9) in ExecSeq(p, 2, s1, fuel + 1).seen
  {
    LoopEnd(p, s1, fuel);
    DropOne(p, s1, fuel + 1);
    MoveX(p, s1, fuel + 1);
  }

  lemma DropOne(p: seq<Node>, s1: State, n: nat)
    requires |p| == 9 && p[5] == Op(",", 5)
    ensures ExecSeq(p, 5, Push(s1, VInt(1)), n).status == ExecSeq(p, 6, s1, n).status
    ensures ExecSeq(p, 6, s1, n).seen <= ExecSeq(p, 5, Push(s1, VInt(1)), n).seen
  {
    var s3 := Push(s1, VInt(1));
    assert Pop(s3, 1) == s1;
    assert Exec(p[5], s3, n) == ExecOp(",", s3, n);
    Go(p, 5, s3, n, s1);
  }

  lemma MoveX(p: seq<Node>, s1: State, n: nat)
    requires |p| == 9 && p[2] == Int(1, 2) && p[3] == Bind("x", 3) && p[4] == Move("x", 4) && "x" !in s1.env
    ensures var s3 := Push(s1, VInt(1));
      && ExecSeq(p, 2, s1, n).status == ExecSeq(p, 5, s3, n).status
      && ExecSeq(p, 5, s3, n).seen <= ExecSeq(p, 2, s1, n).seen
  {
    var s3 := Push(s1, VInt(1));
    var s2 := s1.(env := s1.env["x" := VInt(1)]);
    assert s2.env - {"x"} == s1.env;
    assert Pop(s3, 1) == s1;
    Go(p, 4, s2, n, s3);
    Go(p, 3, s3, n, s2);
    Go(p, 2, s1, n, s3);
  }

  lemma LoopEnd(p: seq<Node>, st: State, fuel: nat)
    requires |p| == 9 && p[6] == Blk(COND, 6) && p[7] == Blk(BODY, 14) && p[8] == Op(";", 19)
    requires st.depth == 0 && st.stack == [] && "f" in st.env && st.env["f"] == VInt(0)
    ensures var r := ExecSeq(p, 6, st, fuel + 1);
      r.status == Ran && Leave(9) in r.seen
  {
    var n := fuel + 1;
    var s1 := Push(st, VBlk(COND));
    var s2 := Push(s1, VBlk(BODY));
    assert Pop(s2, 2) == st;
    WhileRuns(st, fuel);
    var r := While(COND, BODY, st, n);
    assert Exec(p[8], s2, n) == ExecOp(";", s2, n) == r;
    Go(p, 6, st, n, s1);
    Go(p, 7, s1, n, s2);
    Go(p, 8, s2, n, r.st);
  }

  // ---- a moved-out name inside a block that `ty` may run

  /** [ 1 :x 'x , x ] :b [ b @ ] ty -- the fault is the expected `err` path. */
  const GONE: seq<Node> := [Int(1, 1), Bind("x", 2), Move("x", 3), Op(",", 4), Name("x", 5)]
  const CALL_B: seq<Node> := [Name("b", 8), Op("@", 9)]
  const TRIED: seq<Node> := [Blk(GONE, 0), Bind("b", 6), Blk(CALL_B, 7), Name("ty", 10)]

  lemma TriedIsReported()
    ensures Diag(5, MovedOut) in Check(TRIED)
  {
    BindsAt(GONE, 1);
    TriedWalk(Context(TRIED, true), TRIED);
    DiagsOfIn(Findings(TRIED, true), Diag(5, MovedOut));
  }

  lemma TriedWalk(c: Ctx, p: seq<Node>)
    requires "x" in c.bound && |p| == 4 && p[0] == Blk(GONE, 0) && p[1] == Bind("b", 6)
    ensures Diag(5, MovedOut) in Walk(c, p, 0, Exact({}), false, {})
  {
    GoneWalk(c, GONE);
    assert UseOf(c, p, 0) == Escapes;
    Inside(c, p, 0, Exact({}), {}, Diag(5, MovedOut));
  }

  lemma GoneWalk(c: Ctx, p: seq<Node>)
    requires "x" in c.bound && |p| == 5 && p[0].Int? && p[1] == Bind("x", 2) && p[2] == Move("x", 3)
    requires p[3] == Op(",", 4) && p[4] == Name("x", 5)
    ensures Diag(5, MovedOut) in Walk(c, p, 0, Unknown, false, {})
  {
    var f := Diag(5, MovedOut);
    assert f in LeafFindings(c, p, 4, Unknown, false, {"x"});
    assert f in Walk(c, p, 4, Unknown, false, {"x"});
    Later(c, p, 3, Unknown, {"x"}, f);
    NowMoved(c, p[2]);
    Later(c, p, 2, Unknown, {}, f);
    Earlier(c, p, 0, 2, Unknown, f);
  }

  lemma GoneFaults(p: seq<Node>, st: State, fuel: nat)
    requires |p| == 5 && p[0] == Int(1, 1) && p[1] == Bind("x", 2) && p[2] == Move("x", 3)
    requires p[3] == Op(",", 4) && p[4] == Name("x", 5)
    requires st.depth == 1 && st.stack == []
    ensures Invoke(p, st, fuel).status == Raised("NAME_UNRESOLVED")
  {
    var s0 := st.(depth := 2);
    var s1 := s0.(env := s0.env["x" := VInt(1)]);
    var s3 := Push(s0, VInt(1));
    assert Pop(s3, 1) == s0;
    GoneEnd(p, s1, fuel);
    Go(p, 1, s3, fuel, s1);
    Go(p, 0, s0, fuel, s3);
  }

  lemma GoneEnd(p: seq<Node>, s1: State, fuel: nat)
    requires |p| == 5 && p[2] == Move("x", 3) && p[3] == Op(",", 4) && p[4] == Name("x", 5)
    requires "x" in s1.env && s1.env["x"] == VInt(1)
    ensures ExecSeq(p, 2, s1, fuel).status == Raised("NAME_UNRESOLVED")
  {
    var s2 := s1.(env := s1.env - {"x"});
    var s4 := Push(s2, VInt(1));
    assert Pop(s4, 1) == s2;
    Stop(p, 4, s2, fuel);
    assert Exec(p[3], s4, fuel) == ExecOp(",", s4, fuel);
    Go(p, 3, s4, fuel, s2);
    Go(p, 2, s1, fuel, s4);
  }

  /** The program runs to its end. */
  lemma TriedSucceeds(fuel: nat)
    ensures Run(TRIED, fuel).status == Ran
  {
    TriedRuns(TRIED, BEGIN, fuel);
  }

  lemma TriedRuns(p: seq<Node>, s0: State, fuel: nat)
    requires p == TRIED && s0 == BEGIN
    ensures ExecSeq(p, 0, s0, fuel).status == Ran
  {
    var s1 := s0.(env := s0.env["b" := VBlk(GONE)]);
    assert Pop(Push(s0, VBlk(GONE)), 1) == s0;
    TriedEnd(p, s1, fuel);
    Go(p, 1, Push(s0, VBlk(GONE)), fuel, s1);
    Go(p, 0, s0, fuel, Push(s0, VBlk(GONE)));
  }

  lemma TriedEnd(p: seq<Node>, s1: State, fuel: nat)
    requires |p| == 4 && p[2] == Blk(CALL_B, 7) && p[3] == Name("ty", 10)
    requires s1.depth == 0 && "ty" !in s1.env && "b" in s1.env && s1.env["b"] == VBlk(GONE)
    ensures ExecSeq(p, 2, s1, fuel).status == Ran
  {
    var s2 := Push(s1, VBlk(CALL_B));
    assert Pop(s2, 1) == s1;
    CallFaults(s1, fuel);
    var r := ExecTry(CALL_B, s1, fuel);
    assert Exec(p[3], s2, fuel) == ExecWord("ty", s2, fuel) == r;
    Go(p, 3, s2, fuel, r.st);
    Go(p, 2, s1, fuel, s2);
  }

  lemma CallFaults(s1: State, fuel: nat)
    requires s1.depth == 0 && "b" in s1.env && s1.env["b"] == VBlk(GONE)
    ensures Invoke(CALL_B, s1.(stack := []), fuel).status == Raised("NAME_UNRESOLVED")
  {
    var p := CALL_B;
    var t := s1.(stack := [], depth := 1);
    var t1 := Push(t, VBlk(GONE));
    assert Pop(t1, 1) == t;
    GoneFaults(GONE, t, fuel);
    assert Exec(p[1], t1, fuel) == ExecOp("@", t1, fuel) == Invoke(GONE, t, fuel);
    Stop(p, 1, t1, fuel);
    Go(p, 0, t, fuel, t1);
  }
}
