// The checker's promises, over every run of every core program.

module CheckerTheorems {
  import opened Syntax
  import opened Machine
  import opened CheckerModel
  import opened CheckerStatic
  import opened CheckerSound
  import opened CheckerSim

  /** A parsed program that binds neither of the words that run blocks, gr and ty. */
  ghost predicate CoreProgram(program: seq<Node>) {
    Distinct(program) && "gr" !in Binds(program) && "ty" !in Binds(program)
  }

  lemma RunSound(program: seq<Node>, fuel: nat)
    requires CoreProgram(program)
    ensures var d := set f | f in Findings(program, false);
      Post(Context(program, false), d, Run(program, fuel), false)
  {
    var c := Context(program, false);
    var d := set f | f in Findings(program, false);
    assert program[0..] == program;
    WalkSafe(c, d, program, 0, Exact({}), false, {});
    SimSeq(c, d, program, 0, BEGIN, fuel, Exact({}), false, {});
  }

  // ---- what the `;` condition inherits

  /** Walking with more marks finds more, but only more names moved out. */
  lemma {:induction false} WalkMarks(c: Ctx, c': Ctx, nodes: seq<Node>, i: nat, known: Known, inTy: bool,
                                     m: set<string>, m': set<string>)
    requires i <= |nodes| && c' == c.(inherit := false) && m' <= m
    ensures OnlyMoves(Walk(c, nodes, i, known, inTy, m), Walk(c', nodes, i, known, inTy, m'))
    decreases nodes, 2 * (|nodes| - i) + 1
  {
    if i < |nodes| {
      BlockMarks(c, c', nodes, i, known, inTy, m, m');
      var n, n' := MovedAfter(c, nodes[i], m), MovedAfter(c', nodes[i], m');
      WalkMarks(c, c', nodes, i + 1, known, inTy, n, n');
      LeafMarks(c, c', nodes, i, known, inTy, m, m');
      var own := if known.Exact? then [Runs(nodes[i].pos, known.caps)] else [];
      SumMarks(own, LeafFindings(c, nodes, i, known, inTy, m), BlockFindings(c, nodes, i, known, inTy, m),
               Walk(c, nodes, i + 1, known, inTy, n),
               LeafFindings(c', nodes, i, known, inTy, m'), BlockFindings(c', nodes, i, known, inTy, m'),
               Walk(c', nodes, i + 1, known, inTy, n'));
    }
  }

  /** Everything in the second list is in the first, and only names moved out
      are missing from it. */
  ghost predicate OnlyMoves(fs: seq<Finding>, gs: seq<Finding>) {
    && (forall f | f in gs :: f in fs)
    && (forall f | f in fs && (f.Runs? || f.rule != MovedOut) :: f in gs)
  }

  lemma SumMarks(own: seq<Finding>, a: seq<Finding>, b: seq<Finding>, e: seq<Finding>,
                 a': seq<Finding>, b': seq<Finding>, e': seq<Finding>)
    requires OnlyMoves(a, a') && OnlyMoves(b, b') && OnlyMoves(e, e')
    ensures OnlyMoves(own + a + b + e, own + a' + b' + e')
  {
  }

  lemma LeafMarks(c: Ctx, c': Ctx, nodes: seq<Node>, i: nat, known: Known, inTy: bool, m: set<string>, m': set<string>)
    requires i < |nodes| && c' == c.(inherit := false) && m' <= m
    ensures OnlyMoves(LeafFindings(c, nodes, i, known, inTy, m), LeafFindings(c', nodes, i, known, inTy, m'))
  {
  }

  lemma {:induction false} BlockMarks(c: Ctx, c': Ctx, nodes: seq<Node>, i: nat, known: Known, inTy: bool,
                                      m: set<string>, m': set<string>)
    requires i < |nodes| && c' == c.(inherit := false) && m' <= m
    ensures OnlyMoves(BlockFindings(c, nodes, i, known, inTy, m), BlockFindings(c', nodes, i, known, inTy, m'))
    decreases nodes, 2 * (|nodes| - i)
  {
    if nodes[i].Blk? {
      var use := UseOf(c, nodes, i);
      assert UseOf(c', nodes, i) == use;
      if use == Arms {
        if |nodes[i].nodes| % 2 == 0 {
          ArmMarks(c, c', nodes[i].nodes, 0, nodes[i].pos, known, inTy, m, m');
        }
      } else {
        WalkMarks(c, c', nodes[i].nodes, 0, InnerKnown(nodes, i, use, known), inTy || use == Try,
                  InnerMoved(c, use, m), InnerMoved(c', use, m'));
      }
    }
  }

  lemma {:induction false} ArmMarks(c: Ctx, c': Ctx, arms: seq<Node>, j: nat, pos: nat, known: Known, inTy: bool,
                                    m: set<string>, m': set<string>)
    requires j <= |arms| && |arms| % 2 == 0 && j % 2 == 0 && c' == c.(inherit := false) && m' <= m
    ensures OnlyMoves(ArmFindings(c, arms, j, pos, known, inTy, m), ArmFindings(c', arms, j, pos, known, inTy, m'))
    decreases arms, 2 * (|arms| - j) + 2
  {
    if j < |arms| {
      ArmMarks(c, c', arms, j + 2, pos, known, inTy, m, m');
      if arms[j].Blk? && arms[j + 1].Blk? {
        WalkMarks(c, c', arms[j + 1].nodes, 0, known, inTy, m, m');
      }
    }
  }

  lemma CheckIn(program: seq<Node>, f: Finding)
    requires f in Check(program)
    ensures f.Diag? && f in Findings(program, true)
    ensures f.rule != MovedOut ==> f in Findings(program, false)
  {
    DiagsOfIn(Findings(program, true), f);
    WalkMarks(Context(program, true), Context(program, false), program, 0, Exact({}), false, {}, {});
  }

  // ---- the promises

  /** Every `rq` reported as denied, whether because the exact authority lacks
      the capability or because nothing can ever grant it, ends any run that
      reaches it with CAP_DENIED, which nothing catches; it never succeeds. */
  lemma DeniedIsDenied(program: seq<Node>, fuel: nat, f: Finding)
    requires CoreProgram(program) && f in Check(program) && f.Diag?
    requires f.rule == Denied || f.rule == NeverGranted
    ensures var r := Run(program, fuel);
      && (Entered(r.seen, f.pos) ==> r.status == Raised("CAP_DENIED"))
      && Leave(f.pos) !in r.seen
  {
    RunSound(program, fuel);
    CheckIn(program, f);
  }

  /** A name that nothing binds never resolves, whatever runs it. */
  lemma UnboundNeverResolves(program: seq<Node>, fuel: nat, f: Finding)
    requires CoreProgram(program) && f in Check(program) && f.Diag? && f.rule == Unbound
    ensures var r := Run(program, fuel);
      && Leave(f.pos) !in r.seen
      && (forall code | Raise(f.pos, code) in r.seen :: code == "NAME_UNRESOLVED")
      && (Entered(r.seen, f.pos) && !Context(program, true).usesTy ==> r.status == Raised("NAME_UNRESOLVED"))
  {
    RunSound(program, fuel);
    CheckIn(program, f);
  }

  /** The same of a name reported as moved out, unless only a `;` condition's
      surroundings moved it: the condition runs again after the body rebinds. */
  lemma MovedOutNeverResolves(program: seq<Node>, fuel: nat, f: Finding)
    requires CoreProgram(program) && f in Check(program) && f.Diag? && f.rule == MovedOut
    requires f in Findings(program, false)
    ensures var r := Run(program, fuel);
      && Leave(f.pos) !in r.seen
      && (forall code | Raise(f.pos, code) in r.seen :: code == "NAME_UNRESOLVED")
      && (Entered(r.seen, f.pos) && !Context(program, true).usesTy ==> r.status == Raised("NAME_UNRESOLVED"))
  {
    RunSound(program, fuel);
  }

  /** Where the checker knows the authority, the machine runs with just that. */
  lemma AnchoredRunsExactly(program: seq<Node>, fuel: nat, f: Finding, caps: set<string>)
    requires CoreProgram(program) && f in Findings(program, true) && f.Runs?
    requires Enter(f.pos, caps) in Run(program, fuel).seen
    ensures caps == f.caps
  {
    RunSound(program, fuel);
    WalkMarks(Context(program, true), Context(program, false), program, 0, Exact({}), false, {}, {});
  }

  /** No node ever runs with a capability that no free literal names. */
  lemma NeverGrantedNeverHeld(program: seq<Node>, fuel: nat, pos: nat, caps: set<string>)
    requires CoreProgram(program) && Enter(pos, caps) in Run(program, fuel).seen
    ensures caps <= FreeCaps(Binds(program), program, 0)
  {
    RunSound(program, fuel);
  }

  // ---- where the promises stop

  /** No `;` condition starts with names moved out before it. */
  ghost predicate FreshConds(c: Ctx, nodes: seq<Node>, i: nat, moved: set<string>)
    requires i <= |nodes|
    decreases nodes, 2 * (|nodes| - i) + 1
  {
    i == |nodes|
    || (FreshBlock(c, nodes, i, moved) && FreshConds(c, nodes, i + 1, MovedAfter(c, nodes[i], moved)))
  }

  ghost predicate FreshBlock(c: Ctx, nodes: seq<Node>, i: nat, moved: set<string>)
    requires i < |nodes|
    decreases nodes, 2 * (|nodes| - i)
  {
    nodes[i].Blk? ==>
      var use := UseOf(c, nodes, i);
      if use == Arms then FreshArms(c, nodes[i].nodes, 0, moved)
      else
        && (use == LoopCond ==> moved == {})
        && FreshConds(c, nodes[i].nodes, 0, InnerMoved(c, use, moved))
  }

  ghost predicate FreshArms(c: Ctx, arms: seq<Node>, j: nat, moved: set<string>)
    decreases arms, 2 * |arms| + 2, |arms| - j
  {
    j < |arms| ==> (arms[j].Blk? ==> FreshConds(c, arms[j].nodes, 0, moved)) && FreshArms(c, arms, j + 1, moved)
  }

  lemma {:induction false} FreshWalk(c: Ctx, c': Ctx, nodes: seq<Node>, i: nat, known: Known, inTy: bool, m: set<string>)
    requires i <= |nodes| && c' == c.(inherit := false) && FreshConds(c, nodes, i, m)
    ensures Walk(c, nodes, i, known, inTy, m) == Walk(c', nodes, i, known, inTy, m)
    decreases nodes, 2 * (|nodes| - i) + 1
  {
    if i < |nodes| {
      FreshBlockWalk(c, c', nodes, i, known, inTy, m);
      FreshLeaf(c, c', nodes, i, known, inTy, m);
      FreshWalk(c, c', nodes, i + 1, known, inTy, MovedAfter(c, nodes[i], m));
    }
  }

  lemma FreshLeaf(c: Ctx, c': Ctx, nodes: seq<Node>, i: nat, known: Known, inTy: bool, m: set<string>)
    requires i < |nodes| && c' == c.(inherit := false)
    ensures MovedAfter(c, nodes[i], m) == MovedAfter(c', nodes[i], m)
    ensures LeafFindings(c, nodes, i, known, inTy, m) == LeafFindings(c', nodes, i, known, inTy, m)
  {
  }

  lemma {:induction false} FreshBlockWalk(c: Ctx, c': Ctx, nodes: seq<Node>, i: nat, known: Known, inTy: bool, m: set<string>)
    requires i < |nodes| && c' == c.(inherit := false) && FreshBlock(c, nodes, i, m)
    ensures BlockFindings(c, nodes, i, known, inTy, m) == BlockFindings(c', nodes, i, known, inTy, m)
    decreases nodes, 2 * (|nodes| - i)
  {
    if nodes[i].Blk? {
      var use := UseOf(c, nodes, i);
      assert UseOf(c', nodes, i) == use;
      if use == Arms {
        if |nodes[i].nodes| % 2 == 0 {
          FreshArmWalk(c, c', nodes[i].nodes, 0, nodes[i].pos, known, inTy, m);
        }
      } else {
        FreshWalk(c, c', nodes[i].nodes, 0, InnerKnown(nodes, i, use, known), inTy || use == Try, InnerMoved(c, use, m));
      }
    }
  }

  lemma {:induction false} FreshArmWalk(c: Ctx, c': Ctx, arms: seq<Node>, j: nat, pos: nat, known: Known, inTy: bool,
                                        m: set<string>)
    requires j <= |arms| && |arms| % 2 == 0 && j % 2 == 0 && c' == c.(inherit := false) && FreshArms(c, arms, j, m)
    ensures ArmFindings(c, arms, j, pos, known, inTy, m) == ArmFindings(c', arms, j, pos, known, inTy, m)
    decreases arms, 2 * (|arms| - j) + 2
  {
    if j < |arms| {
      assert FreshArms(c, arms, j + 1, m);
      FreshArmWalk(c, c', arms, j + 2, pos, known, inTy, m);
      if arms[j].Blk? && arms[j + 1].Blk? {
        FreshWalk(c, c', arms[j + 1].nodes, 0, known, inTy, m);
      }
    }
  }

  /** So with fresh conditions every name reported as moved out is unresolved. */
  lemma FreshMovedOut(program: seq<Node>, fuel: nat, f: Finding)
    requires CoreProgram(program) && f in Check(program) && f.Diag? && f.rule == MovedOut
    requires FreshConds(Context(program, true), program, 0, {})
    ensures Leave(f.pos) !in Run(program, fuel).seen
    ensures Entered(Run(program, fuel).seen, f.pos) && !Context(program, true).usesTy
        ==> Run(program, fuel).status == Raised("NAME_UNRESOLVED")
  {
    CheckIn(program, f);
    FreshWalk(Context(program, true), Context(program, false), program, 0, Exact({}), false, {});
    MovedOutNeverResolves(program, fuel, f);
  }
}
