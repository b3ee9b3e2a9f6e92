// What the checker says of `??`, against the match that the machine runs: which
// arms are malformed, which leave a result unhandled, and what that means for
// every run.

module CheckerMatch {
  import opened Syntax
  import opened Machine
  import opened CheckerModel
  import opened CheckerStatic

  // ---- arms and the values they meet

  /** From arm j on: pairs of blocks, each with a pattern there is. */
  ghost predicate Sound(arms: seq<Node>, j: nat)
    requires j <= |arms| && |arms| % 2 == 0 && j % 2 == 0
    decreases |arms| - j
  {
    j < |arms| ==> arms[j].Blk? && arms[j + 1].Blk? && Label(arms[j]) != "" && Sound(arms, j + 2)
  }

  /** Sound arms refuse no value as malformed. */
  lemma {:induction false} SoundChoice(arms: seq<Node>, j: nat, v: Value)
    requires j <= |arms| && |arms| % 2 == 0 && j % 2 == 0 && Sound(arms, j)
    ensures Choose(arms, j, v) != Refused("BAD_PATTERN")
    ensures Choose(arms, j, v).Refused? ==> Choose(arms, j, v) == Refused("NO_MATCH")
    decreases |arms| - j
  {
    if j < |arms| {
      SoundChoice(arms, j + 2, v);
    }
  }

  /** An arm that is not: whatever comes to it is refused. */
  ghost predicate Malformed(arms: seq<Node>, k: nat) {
    k < |arms| && |arms| % 2 == 0 && k % 2 == 0 && forall v :: Choose(arms, k, v) == Refused("BAD_PATTERN")
  }

  lemma {:induction false} UnsoundArm(arms: seq<Node>, j: nat) returns (k: nat)
    requires j <= |arms| && |arms| % 2 == 0 && j % 2 == 0 && !Sound(arms, j)
    ensures j <= k && Malformed(arms, k)
    decreases |arms| - j
  {
    if arms[j].Blk? && arms[j + 1].Blk? && Label(arms[j]) != "" {
      k := UnsoundArm(arms, j + 2);
    } else {
      k := j;
      forall v
        ensures Choose(arms, k, v) == Refused("BAD_PATTERN")
      {
        BadLabel(arms, k, v);
      }
    }
  }

  lemma BadLabel(arms: seq<Node>, k: nat, v: Value)
    requires k < |arms| && |arms| % 2 == 0 && k % 2 == 0
    requires !arms[k].Blk? || !arms[k + 1].Blk? || Label(arms[k]) == ""
    ensures Choose(arms, k, v) == Refused("BAD_PATTERN")
  {
  }

  lemma {:induction false} SoundFrom(arms: seq<Node>, j: nat, k: nat)
    requires j <= k <= |arms| && |arms| % 2 == 0 && j % 2 == 0 && k % 2 == 0 && Sound(arms, j)
    ensures Sound(arms, k)
    decreases k - j
  {
    if j < k {
      SoundFrom(arms, j + 2, k);
    }
  }

  /** Arms are sound exactly when none of them refuses all that comes to it. */
  lemma SoundIff(arms: seq<Node>)
    requires |arms| % 2 == 0
    ensures Sound(arms, 0) <==> forall k :: !Malformed(arms, k)
  {
    if !Sound(arms, 0) {
      var k := UnsoundArm(arms, 0);
      assert Malformed(arms, k);
    } else if k :| Malformed(arms, k) {
      SoundFrom(arms, 0, k);
      SoundChoice(arms, k, VInt(0));
    }
  }

  /** Which results sound arms leave: those that no label speaks of. */
  lemma {:induction false} ResultChoice(arms: seq<Node>, j: nat, ok: bool, w: Value)
    requires j <= |arms| && |arms| % 2 == 0 && j % 2 == 0 && Sound(arms, j)
    ensures var seen := Labels(arms, j);
      Choose(arms, j, VRes(ok, w)) == Refused("NO_MATCH")
      <==> !("any" in seen || "res" in seen || (if ok then "ok" else "err") in seen)
    decreases |arms| - j
  {
    if j < |arms| {
      ResultChoice(arms, j + 2, ok, w);
      OneLabel(arms, j, ok, w);
    }
  }

  lemma OneLabel(arms: seq<Node>, j: nat, ok: bool, w: Value)
    requires j < |arms| && |arms| % 2 == 0 && j % 2 == 0 && arms[j].Blk? && arms[j + 1].Blk? && Label(arms[j]) != ""
    ensures var l := Label(arms[j]);
      if l == "any" || l == "res" || l == (if ok then "ok" else "err") then Choose(arms, j, VRes(ok, w)).Chosen?
      else Choose(arms, j, VRes(ok, w)) == Choose(arms, j + 2, VRes(ok, w))
  {
  }

  /** Some result finds no arm. */
  ghost predicate Leaves(arms: seq<Node>)
    requires |arms| % 2 == 0
  {
    exists ok, w :: Choose(arms, 0, VRes(ok, w)) == Refused("NO_MATCH")
  }

  predicate Handled(seen: set<string>) {
    "any" in seen || "res" in seen || {"ok", "err"} <= seen
  }

  lemma LeavesIff(arms: seq<Node>)
    requires |arms| % 2 == 0 && Sound(arms, 0)
    ensures Leaves(arms) <==> !Handled(Labels(arms, 0))
  {
    ResultChoice(arms, 0, true, VInt(0));
    ResultChoice(arms, 0, false, VInt(0));
    if ok, w :| Choose(arms, 0, VRes(ok, w)) == Refused("NO_MATCH") {
      ResultChoice(arms, 0, ok, w);
    }
  }

  // ---- what is reported of arms

  /** A report about these arms, not about the code in their bodies. */
  ghost predicate Own(arms: seq<Node>, pos: nat, f: Finding) {
    f.Diag? && (f.pos == pos || exists k :: 0 <= k < |arms| && arms[k].pos == f.pos)
  }

  /** No arm from j on is reported as malformed. */
  ghost predicate NoBad(fs: seq<Finding>, arms: seq<Node>, pos: nat, j: nat) {
    Diag(pos, BadArms) !in fs && forall k :: j <= k < |arms| ==> Diag(arms[k].pos, BadArms) !in fs
  }

  lemma BadReported(c: Ctx, arms: seq<Node>, j: nat, pos: nat, known: Known, inTy: bool, moved: set<string>)
    requires j < |arms| && |arms| % 2 == 0 && j % 2 == 0
    ensures var fs := ArmFindings(c, arms, j, pos, known, inTy, moved);
      if !arms[j].Blk? || !arms[j + 1].Blk? then Diag(pos, BadArms) in fs
      else Label(arms[j]) == "" ==> Diag(arms[j].pos, BadArms) in fs
  {
  }

  lemma {:induction false} UnreportedSound(c: Ctx, arms: seq<Node>, j: nat, pos: nat, known: Known, inTy: bool, moved: set<string>)
    requires j <= |arms| && |arms| % 2 == 0 && j % 2 == 0
    requires NoBad(ArmFindings(c, arms, j, pos, known, inTy, moved), arms, pos, j)
    ensures Sound(arms, j)
    decreases |arms| - j
  {
    if j < |arms| {
      BadReported(c, arms, j, pos, known, inTy, moved);
      UnreportedSound(c, arms, j + 2, pos, known, inTy, moved);
    }
  }

  /** Nothing in the bodies is reported at the arms' own places. */
  lemma {:induction false} SoundUnreported(c: Ctx, arms: seq<Node>, j: nat, pos: nat, known: Known, inTy: bool,
                                           moved: set<string>, f: Finding)
    requires j <= |arms| && |arms| % 2 == 0 && j % 2 == 0 && Sound(arms, j)
    requires Distinct(arms) && pos !in Positions(arms) && Own(arms, pos, f)
    ensures f !in ArmFindings(c, arms, j, pos, known, inTy, moved)
    decreases |arms| - j
  {
    if j < |arms| {
      SoundUnreported(c, arms, j + 2, pos, known, inTy, moved, f);
      NotInside(arms, pos, j + 1, f.pos);
      BodyUnreported(c, arms[j + 1].nodes, known, inTy, moved, f);
    }
  }

  lemma BodyUnreported(c: Ctx, body: seq<Node>, known: Known, inTy: bool, moved: set<string>, f: Finding)
    requires f.pos !in Positions(body)
    ensures f !in Walk(c, body, 0, known, inTy, moved)
  {
    WalkWithin(c, body, 0, known, inTy, moved);
    assert body[0..] == body;
  }

  lemma NotInside(arms: seq<Node>, pos: nat, k: nat, p: nat)
    requires Distinct(arms) && pos !in Positions(arms) && k < |arms| && arms[k].Blk?
    requires p == pos || exists m :: 0 <= m < |arms| && arms[m].pos == p
    ensures p !in Positions(arms[k].nodes)
  {
    PositionsAt(arms, k);
    DistinctNodeAt(arms, k);
    if p != pos {
      var m :| 0 <= m < |arms| && arms[m].pos == p;
      if m < k {
        DistinctAt(arms, m, k);
      } else if k < m {
        DistinctAt(arms, k, m);
      }
    }
  }

  /** Arms of a parsed program are reported as malformed exactly when they are. */
  lemma BadArmsIff(c: Ctx, arms: seq<Node>, pos: nat, known: Known, inTy: bool, onResult: bool, moved: set<string>)
    requires Distinct(arms) && pos !in Positions(arms)
    ensures NoBad(ArmsFindings(c, arms, pos, known, inTy, onResult, moved), arms, pos, 0)
       <==> |arms| % 2 == 0 && forall k :: !Malformed(arms, k)
  {
    var fs := ArmsFindings(c, arms, pos, known, inTy, onResult, moved);
    if |arms| % 2 == 0 {
      SoundIff(arms);
      var gs := ArmFindings(c, arms, 0, pos, known, inTy, moved);
      if NoBad(fs, arms, pos, 0) {
        assert NoBad(gs, arms, pos, 0);
        UnreportedSound(c, arms, 0, pos, known, inTy, moved);
      } else if Sound(arms, 0) {
        SoundUnreported(c, arms, 0, pos, known, inTy, moved, Diag(pos, BadArms));
        forall k | 0 <= k < |arms|
          ensures Diag(arms[k].pos, BadArms) !in fs
        {
          SoundUnreported(c, arms, 0, pos, known, inTy, moved, Diag(arms[k].pos, BadArms));
        }
      }
    } else {
      assert fs[0] == Diag(pos, BadArms);
    }
  }

  /** Where no arm is malformed: the match is reported as not exhaustive exactly
      when it is behind a result and some result finds no arm. */
  lemma ExhaustiveIff(c: Ctx, arms: seq<Node>, pos: nat, known: Known, inTy: bool, onResult: bool, moved: set<string>)
    requires Distinct(arms) && pos !in Positions(arms)
    requires NoBad(ArmsFindings(c, arms, pos, known, inTy, onResult, moved), arms, pos, 0)
    ensures |arms| % 2 == 0
    ensures Diag(pos, NotExhaustive) in ArmsFindings(c, arms, pos, known, inTy, onResult, moved)
       <==> onResult && Leaves(arms)
  {
    BadArmsIff(c, arms, pos, known, inTy, onResult, moved);
    SoundIff(arms);
    LeavesIff(arms);
    SoundUnreported(c, arms, 0, pos, known, inTy, moved, Diag(pos, NotExhaustive));
  }
}
