// The checker as the source keeps it: an object that collects facts about the
// program and then walks it, appending diagnostics. What it appends is exactly
// what CheckerModel says.

module CheckerObject {
  import opened Syntax
  import opened CheckerModel
  import Machine

  class Checker {
    var diags: seq<Finding>
    var bound: set<string>
    var grantable: set<string>
    var usesTy: bool

    constructor ()
      ensures diags == [] && bound == {} && grantable == {} && !usesTy
    {
      diags, bound, grantable, usesTy := [], {}, {}, false;
    }

    function Facts(): Ctx
      reads this
    {
      Ctx(bound, grantable, usesTy, true)
    }

    /** The whole check of a program. */
    method Check(nodes: seq<Node>) returns (ds: seq<Finding>)
      requires diags == [] && bound == {} && grantable == {} && !usesTy
      modifies this
      ensures ds == CheckerModel.Check(nodes)
    {
      CollectBinds(nodes);
      if "gr" !in bound {
        ScanFreeCaps(nodes);
      }
      usesTy := UsesWordTy(nodes);
      assert bound == Binds(nodes);
      assert grantable == (if "gr" in bound then {} else FreeCaps(bound, nodes, 0));
      Walk(nodes, Exact({}), false, {});
      ds := diags;
    }

    method CollectBinds(nodes: seq<Node>)
      modifies this`bound
      ensures bound == old(bound) + Binds(nodes)
      decreases nodes
    {
      for i := 0 to |nodes|
        invariant bound + Binds(nodes[i..]) == old(bound) + Binds(nodes)
      {
        assert nodes[i..][1..] == nodes[i + 1..];
        if nodes[i].Bind? {
          bound := bound + {nodes[i].name};
        } else if nodes[i].Blk? {
          CollectBinds(nodes[i].nodes);
        }
      }
      assert nodes[|nodes|..] == [];
    }

    method ScanFreeCaps(nodes: seq<Node>)
      modifies this`grantable
      ensures grantable == old(grantable) + FreeCaps(bound, nodes, 0)
      decreases nodes
    {
      for i := 0 to |nodes|
        invariant grantable + FreeCaps(bound, nodes, i) == old(grantable) + FreeCaps(bound, nodes, 0)
      {
        var n := nodes[i];
        if n.Cap? {
          ghost var c := Ctx(bound, {}, false, true);
          assert IsWordAt(nodes, i + 1, "rq") == WordAt(c, nodes, i + 1, "rq");
          if !(IsWordAt(nodes, i + 1, "rq") || IsWordAt(nodes, i + 1, "hv")) {
            grantable := grantable + {n.cap};
          }
        } else if n.Blk? {
          ScanFreeCaps(n.nodes);
        }
      }
    }

    predicate IsWordAt(nodes: seq<Node>, i: int, w: string)
      reads this
    {
      0 <= i < |nodes| && nodes[i].Name? && nodes[i].name == w && w !in bound
    }

    method UsesWordTy(nodes: seq<Node>) returns (b: bool)
      ensures b == UsesTy(bound, nodes)
      decreases nodes
    {
      for i := 0 to |nodes|
        invariant UsesTy(bound, nodes) == UsesTy(bound, nodes[i..])
      {
        assert nodes[i..][1..] == nodes[i + 1..];
        if IsWordAt(nodes, i, "ty") {
          return true;
        }
        if nodes[i].Blk? {
          var inner := UsesWordTy(nodes[i].nodes);
          if inner {
            return true;
          }
        }
      }
      assert nodes[|nodes|..] == [];
      return false;
    }

    method Report(b: bool, pos: nat, rule: Rule)
      modifies this`diags
      ensures diags == old(diags) + When(b, Diag(pos, rule))
    {
      if b {
        diags := diags + [Diag(pos, rule)];
      }
    }

    method CheckRequire(cap: string, pos: nat, known: Known)
      modifies this`diags
      ensures diags == old(diags) + Require(Facts(), cap, pos, known)
    {
      if known.Exact? && cap !in known.caps {
        diags := diags + [Diag(pos, Denied)];
      } else if cap !in grantable && !usesTy {
        diags := diags + [Diag(pos, NeverGranted)];
      }
    }

    /** What the node at i is reported for by itself. */
    method CheckNode(nodes: seq<Node>, i: nat, known: Known, inTy: bool, moved: set<string>)
      requires i < |nodes|
      modifies this`diags
      ensures diags == old(diags) + LeafFindings(Facts(), nodes, i, known, inTy, moved)
    {
      match nodes[i] {
        case Name(x, pos) =>
          Report(x !in bound && x !in Machine.BUILTINS, pos, Unbound);
          Report(x in moved && x !in Machine.BUILTINS && !inTy, pos, MovedOut);
        case Move(x, pos) =>
          if x !in bound {
            diags := diags + [Diag(pos, Unbound)];
          } else if x in moved && !inTy {
            diags := diags + [Diag(pos, MovedOut)];
          }
        case Cap(cap, _) =>
          if IsWordAt(nodes, i + 1, "rq") && !inTy {
            CheckRequire(cap, nodes[i + 1].pos, known);
          }
        case _ =>
      }
    }

    method Walk(nodes: seq<Node>, known: Known, inTy: bool, moved0: set<string>)
      modifies this`diags
      ensures diags == old(diags) + DiagsOf(CheckerModel.Walk(Facts(), nodes, 0, known, inTy, moved0))
      decreases nodes, 2 * |nodes| + 2
    {
      var moved := moved0;
      ghost var c := Facts();
      ghost var done: seq<Finding> := [];
      for i := 0 to |nodes|
        invariant diags == old(diags) + done && Facts() == c
        invariant WalkSoFar(c, nodes, i, known, inTy, moved0, done, moved)
      {
        ghost var own := Own(c, nodes, i, known, inTy, moved);
        WalkNext(c, nodes, i, known, inTy, moved0, done, moved);
        VisitNode(nodes, i, known, inTy, moved);
        Regroup(old(diags), done, own, []);
        done := done + own;
        moved := Forget(nodes[i], moved);
      }
      assert done + [] == done;
    }

    /** The node at i, and the block it may be. */
    method VisitNode(nodes: seq<Node>, i: nat, known: Known, inTy: bool, moved: set<string>)
      requires i < |nodes|
      modifies this`diags
      ensures diags == old(diags) + Own(Facts(), nodes, i, known, inTy, moved)
      decreases nodes, 2 * (|nodes| - i) + 1
    {
      CheckNode(nodes, i, known, inTy, moved);
      if nodes[i].Blk? {
        WalkBlock(nodes, i, known, inTy, moved);
      }
    }

    /** Moves and bindings update the marks; running code clears them. */
    function Forget(n: Node, moved: set<string>): (m: set<string>)
      reads this
      ensures m == MovedAfter(Facts(), n, moved)
    {
      if n.Move? then moved + {n.name}
      else if n.Bind? then moved - {n.name}
      else if (n.Op? && n.sym in {"@", ";", "??"}) || (n.Name? && n.name in {"gr", "ty"} && n.name !in bound) then {}
      else moved
    }

    /** Decides how the block literal at i is consumed and walks it accordingly. */
    method WalkBlock(nodes: seq<Node>, i: nat, known: Known, inTy: bool, moved: set<string>)
      requires i < |nodes| && nodes[i].Blk?
      modifies this`diags
      ensures diags == old(diags) + DiagsOf(BlockFindings(Facts(), nodes, i, known, inTy, moved))
      decreases nodes, 2 * (|nodes| - i)
    {
      var blk := nodes[i].nodes;
      if OpAt(nodes, i + 1, "??") {
        CheckMatchArms(blk, nodes[i].pos, known, inTy, IsWordAt(nodes, i - 1, "ty") && BlkAt(nodes, i - 2), moved);
      } else {
        var inner, ty, inherit := Consumed(nodes, i, known, inTy, moved);
        Walk(blk, inner, ty, inherit);
      }
    }

    /** What a block that is not a list of arms starts with. */
    method Consumed(nodes: seq<Node>, i: nat, known: Known, inTy: bool, moved: set<string>)
      returns (inner: Known, ty: bool, inherit: set<string>)
      requires i < |nodes| && !OpAt(nodes, i + 1, "??")
      ensures inner == InnerKnown(nodes, i, UseOf(Facts(), nodes, i), known)
      ensures ty == (inTy || UseOf(Facts(), nodes, i) == Try)
      ensures inherit == InnerMoved(Facts(), UseOf(Facts(), nodes, i), moved)
    {
      inner, ty, inherit := known, inTy, moved;
      if OpAt(nodes, i + 1, "@") {
      } else if OpAt(nodes, i + 1, ";") {
        inherit := {};
      } else if BlkAt(nodes, i + 1) && OpAt(nodes, i + 2, ";") {
      } else if OpAt(nodes, i + 1, "?") && OpAt(nodes, i + 2, "@") {
      } else if BlkAt(nodes, i + 1) && OpAt(nodes, i + 2, "?") && OpAt(nodes, i + 3, "@") {
      } else if IsWordAt(nodes, i + 1, "gr") {
        inner := if CapAt(nodes, i - 1) && known.Exact? then Exact(known.caps + {nodes[i - 1].cap}) else Unknown;
      } else if IsWordAt(nodes, i + 1, "ty") {
        ty := true;
      } else {
        inner, inherit := Unknown, {};
      }
    }

    method CheckMatchArms(arms: seq<Node>, pos: nat, known: Known, inTy: bool, onResult: bool, moved: set<string>)
      modifies this`diags
      ensures diags == old(diags) + DiagsOf(ArmsFindings(Facts(), arms, pos, known, inTy, onResult, moved))
      decreases arms, 2 * |arms| + 3
    {
      if |arms| % 2 != 0 {
        diags := diags + [Diag(pos, BadArms)];
        return;
      }
      ghost var c := Facts();
      var seen := WalkArms(arms, pos, known, inTy, moved);
      var missing := onResult && !("any" in seen || "res" in seen || {"ok", "err"} <= seen);
      ArmsSum(c, arms, pos, known, inTy, moved, missing);
      ghost var found := DiagsOf(ArmFindings(c, arms, 0, pos, known, inTy, moved));
      Regroup(old(diags), found, When(missing, Diag(pos, NotExhaustive)), []);
      Report(missing, pos, NotExhaustive);
    }

    method WalkArms(arms: seq<Node>, pos: nat, known: Known, inTy: bool, moved: set<string>) returns (seen: set<string>)
      requires |arms| % 2 == 0
      modifies this`diags
      ensures diags == old(diags) + DiagsOf(ArmFindings(Facts(), arms, 0, pos, known, inTy, moved))
      ensures seen == Labels(arms, 0)
      decreases arms, 2 * |arms| + 2, 1
    {
      ghost var c := Facts();
      seen := {};
      var j := 0;
      ghost var done: seq<Finding> := [];
      while j < |arms|
        invariant j % 2 == 0 && j <= |arms|
        invariant diags == old(diags) + done
        invariant ArmsSoFar(c, arms, j, pos, known, inTy, moved, done, seen)
      {
        EvenStep(j, |arms|);
        ArmStep(c, arms, j, pos, known, inTy, moved, done, seen);
        ghost var own := OwnArm(c, arms, j, pos, known, inTy, moved);
        Regroup(old(diags), done, own, []);
        VisitArm(arms, j, pos, known, inTy, moved);
        seen := seen + LabelAt(arms, j);
        done := done + own;
        j := j + 2;
      }
      assert done + [] == done;
    }

    method VisitArm(arms: seq<Node>, j: nat, pos: nat, known: Known, inTy: bool, moved: set<string>)
      requires |arms| % 2 == 0 && j % 2 == 0 && j < |arms|
      modifies this`diags
      ensures diags == old(diags) + OwnArm(Facts(), arms, j, pos, known, inTy, moved)
      decreases arms, 2 * |arms| + 2, 0
    {
      if !arms[j].Blk? || !arms[j + 1].Blk? {
        diags := diags + [Diag(pos, BadArms)];
      } else {
        ghost var body := DiagsOf(CheckerModel.Walk(Facts(), arms[j + 1].nodes, 0, known, inTy, moved));
        Regroup(diags, When(Label(arms[j]) == "", Diag(arms[j].pos, BadArms)), body, []);
        Report(Label(arms[j]) == "", arms[j].pos, BadArms);
        Walk(arms[j + 1].nodes, known, inTy, moved);
      }
    }
  }

  function LabelAt(arms: seq<Node>, j: nat): set<string>
    requires |arms| % 2 == 0 && j % 2 == 0 && j < |arms|
  {
    if arms[j].Blk? && arms[j + 1].Blk? && Label(arms[j]) != "" then {Label(arms[j])} else {}
  }

  ghost function OwnArm(c: Ctx, arms: seq<Node>, j: nat, pos: nat, known: Known, inTy: bool, moved: set<string>): seq<Finding>
    requires |arms| % 2 == 0 && j % 2 == 0 && j < |arms|
  {
    if !arms[j].Blk? || !arms[j + 1].Blk? then [Diag(pos, BadArms)]
    else When(Label(arms[j]) == "", Diag(arms[j].pos, BadArms))
         + DiagsOf(CheckerModel.Walk(c, arms[j + 1].nodes, 0, known, inTy, moved))
  }

  lemma ArmsSum(c: Ctx, arms: seq<Node>, pos: nat, known: Known, inTy: bool, moved: set<string>, missing: bool)
    requires |arms| % 2 == 0
    ensures DiagsOf(ArmFindings(c, arms, 0, pos, known, inTy, moved) + When(missing, Diag(pos, NotExhaustive)))
         == DiagsOf(ArmFindings(c, arms, 0, pos, known, inTy, moved)) + When(missing, Diag(pos, NotExhaustive))
  {
    DiagsOfSum(ArmFindings(c, arms, 0, pos, known, inTy, moved), When(missing, Diag(pos, NotExhaustive)));
    AllDiags(When(missing, Diag(pos, NotExhaustive)));
  }

  lemma AllDiags(fs: seq<Finding>)
    requires forall f | f in fs :: f.Diag?
    ensures DiagsOf(fs) == fs
  {
    if fs != [] {
      AllDiags(fs[1..]);
    }
  }

  /** The diagnostics a walk appends for the node at i. */
  ghost function Own(c: Ctx, nodes: seq<Node>, i: nat, known: Known, inTy: bool, moved: set<string>): seq<Finding>
    requires i < |nodes|
  {
    LeafFindings(c, nodes, i, known, inTy, moved) + DiagsOf(BlockFindings(c, nodes, i, known, inTy, moved))
  }

  lemma Regroup(a: seq<Finding>, b: seq<Finding>, x: seq<Finding>, r: seq<Finding>)
    ensures (a + b) + x == a + (b + x)
    ensures b + (x + r) == (b + x) + r
  {
  }

  /** What a walk has reported before the node at i, with what the rest would add,
      is the whole. */
  ghost predicate WalkSoFar(c: Ctx, nodes: seq<Node>, i: nat, known: Known, inTy: bool, moved0: set<string>,
                            done: seq<Finding>, moved: set<string>)
    requires i <= |nodes|
  {
    done + DiagsOf(CheckerModel.Walk(c, nodes, i, known, inTy, moved)) == DiagsOf(CheckerModel.Walk(c, nodes, 0, known, inTy, moved0))
  }

  lemma WalkNext(c: Ctx, nodes: seq<Node>, i: nat, known: Known, inTy: bool, moved0: set<string>,
                 done: seq<Finding>, moved: set<string>)
    requires i < |nodes| && WalkSoFar(c, nodes, i, known, inTy, moved0, done, moved)
    ensures WalkSoFar(c, nodes, i + 1, known, inTy, moved0, done + Own(c, nodes, i, known, inTy, moved), MovedAfter(c, nodes[i], moved))
  {
    WalkStep(c, nodes, i, known, inTy, moved);
    Regroup(done, Own(c, nodes, i, known, inTy, moved),
            DiagsOf(CheckerModel.Walk(c, nodes, i + 1, known, inTy, MovedAfter(c, nodes[i], moved))), []);
  }

  lemma WalkStep(c: Ctx, nodes: seq<Node>, i: nat, known: Known, inTy: bool, moved: set<string>)
    requires i < |nodes|
    ensures DiagsOf(CheckerModel.Walk(c, nodes, i, known, inTy, moved))
         == Own(c, nodes, i, known, inTy, moved)
            + DiagsOf(CheckerModel.Walk(c, nodes, i + 1, known, inTy, MovedAfter(c, nodes[i], moved)))
  {
    var leaf := LeafFindings(c, nodes, i, known, inTy, moved);
    AllDiags(leaf);
    SumDiags(nodes[i].pos, known, leaf, BlockFindings(c, nodes, i, known, inTy, moved),
             CheckerModel.Walk(c, nodes, i + 1, known, inTy, MovedAfter(c, nodes[i], moved)));
  }

  lemma SumDiags(pos: nat, known: Known, a: seq<Finding>, b: seq<Finding>, e: seq<Finding>)
    ensures DiagsOf((if known.Exact? then [Runs(pos, known.caps)] else []) + a + b + e)
         == (DiagsOf(a) + DiagsOf(b)) + DiagsOf(e)
  {
    var note := if known.Exact? then [Runs(pos, known.caps)] else [];
    NoDiags(note);
    FourDiags(note, a, b, e);
  }

  lemma NoDiags(note: seq<Finding>)
    requires |note| <= 1 && forall f | f in note :: f.Runs?
    ensures DiagsOf(note) == []
  {
    if note != [] {
      assert note[0] in note && note[1..] == [];
      assert DiagsOf(note[1..]) == [];
    }
  }

  lemma FourDiags(note: seq<Finding>, a: seq<Finding>, b: seq<Finding>, e: seq<Finding>)
    requires DiagsOf(note) == []
    ensures DiagsOf(note + a + b + e) == (DiagsOf(a) + DiagsOf(b)) + DiagsOf(e)
  {
    DiagsOfSum(note + a + b, e);
    DiagsOfSum(note + a, b);
    DiagsOfSum(note, a);
    assert [] + DiagsOf(a) == DiagsOf(a);
  }

  lemma EvenStep(j: nat, n: nat)
    requires j % 2 == 0 && n % 2 == 0 && j < n
    ensures (j + 2) % 2 == 0 && j + 2 <= n
  {
  }

  /** What a match walk has collected from the arms before j, with what the rest
      would add, is the whole. */
  ghost predicate ArmsSoFar(c: Ctx, arms: seq<Node>, j: nat, pos: nat, known: Known, inTy: bool, moved: set<string>,
                            done: seq<Finding>, seen: set<string>)
    requires |arms| % 2 == 0 && j % 2 == 0 && j <= |arms|
  {
    && seen + Labels(arms, j) == Labels(arms, 0)
    && done + DiagsOf(ArmFindings(c, arms, j, pos, known, inTy, moved))
       == DiagsOf(ArmFindings(c, arms, 0, pos, known, inTy, moved))
  }

  lemma ArmStep(c: Ctx, arms: seq<Node>, j: nat, pos: nat, known: Known, inTy: bool, moved: set<string>,
                done: seq<Finding>, seen: set<string>)
    requires |arms| % 2 == 0 && j % 2 == 0 && j < |arms|
    requires ArmsSoFar(c, arms, j, pos, known, inTy, moved, done, seen)
    ensures (j + 2) % 2 == 0 && j + 2 <= |arms|
    ensures ArmsSoFar(c, arms, j + 2, pos, known, inTy, moved,
                      done + OwnArm(c, arms, j, pos, known, inTy, moved), seen + LabelAt(arms, j))
  {
    EvenStep(j, |arms|);
    ArmDiags(c, arms, j, pos, known, inTy, moved);
    Regroup(done, OwnArm(c, arms, j, pos, known, inTy, moved),
            DiagsOf(ArmFindings(c, arms, j + 2, pos, known, inTy, moved)), []);
    assert Labels(arms, j) == LabelAt(arms, j) + Labels(arms, j + 2);
  }

  lemma ArmDiags(c: Ctx, arms: seq<Node>, j: nat, pos: nat, known: Known, inTy: bool, moved: set<string>)
    requires |arms| % 2 == 0 && j % 2 == 0 && j < |arms|
    ensures DiagsOf(ArmFindings(c, arms, j, pos, known, inTy, moved))
         == OwnArm(c, arms, j, pos, known, inTy, moved) + DiagsOf(ArmFindings(c, arms, j + 2, pos, known, inTy, moved))
  {
    var rest := ArmFindings(c, arms, j + 2, pos, known, inTy, moved);
    if !arms[j].Blk? || !arms[j + 1].Blk? {
      DiagsOfSum([Diag(pos, BadArms)], rest);
      AllDiags([Diag(pos, BadArms)]);
    } else {
      var bad := When(Label(arms[j]) == "", Diag(arms[j].pos, BadArms));
      var body := CheckerModel.Walk(c, arms[j + 1].nodes, 0, known, inTy, moved);
      DiagsOfSum(bad + body, rest);
      DiagsOfSum(bad, body);
      AllDiags(bad);
    }
  }
}
