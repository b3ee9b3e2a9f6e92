// What the reports on `??` mean for runs: a match that the checker came to and did
// not report never refuses the value it meets; only what its arms run may fault.

module CheckerHandled {
  import opened Syntax
  import opened Machine
  import opened CheckerModel
  import opened CheckerStatic
  import opened CheckerMatch

  // ---- the walks of the checker

  /** One walk: a sequence and what is known where it starts. */
  datatype Visit = Visit(nodes: seq<Node>, known: Known, inTy: bool, moved: set<string>)

  /** Is w this walk, or one that it makes further in? */
  ghost predicate Visited(c: Ctx, v: Visit, w: Visit)
    decreases v.nodes, 2 * |v.nodes| + 2
  {
    w == v || VisitedFrom(c, v.nodes, 0, v.known, v.inTy, v.moved, w)
  }

  ghost predicate VisitedFrom(c: Ctx, nodes: seq<Node>, i: nat, known: Known, inTy: bool, moved: set<string>, w: Visit)
    requires i <= |nodes|
    decreases nodes, 2 * (|nodes| - i) + 1
  {
    i < |nodes|
    && (VisitedIn(c, nodes, i, known, inTy, moved, w)
        || VisitedFrom(c, nodes, i + 1, known, inTy, MovedAfter(c, nodes[i], moved), w))
  }

  ghost predicate VisitedIn(c: Ctx, nodes: seq<Node>, i: nat, known: Known, inTy: bool, moved: set<string>, w: Visit)
    requires i < |nodes|
    decreases nodes, 2 * (|nodes| - i)
  {
    nodes[i].Blk? &&
      var use := UseOf(c, nodes, i);
      if use == Arms then
        |nodes[i].nodes| % 2 == 0 && VisitedArm(c, nodes[i].nodes, 0, known, inTy, moved, w)
      else
        Visited(c, Visit(nodes[i].nodes, InnerKnown(nodes, i, use, known), inTy || use == Try, InnerMoved(c, use, moved)), w)
  }

  ghost predicate VisitedArm(c: Ctx, arms: seq<Node>, j: nat, known: Known, inTy: bool, moved: set<string>, w: Visit)
    requires j <= |arms| && |arms| % 2 == 0 && j % 2 == 0
    decreases arms, 2 * (|arms| - j) + 3
  {
    j < |arms|
    && ((arms[j].Blk? && arms[j + 1].Blk? && Visited(c, Visit(arms[j + 1].nodes, known, inTy, moved), w))
        || VisitedArm(c, arms, j + 2, known, inTy, moved, w))
  }

  function WalkOf(c: Ctx, w: Visit): seq<Finding> {
    Walk(c, w.nodes, 0, w.known, w.inTy, w.moved)
  }

  /** What an inner walk finds, the outer one finds. */
  lemma {:induction false} VisitedFinds(c: Ctx, v: Visit, w: Visit, f: Finding)
    requires Visited(c, v, w) && f in WalkOf(c, w)
    ensures f in WalkOf(c, v)
    decreases v.nodes, 2 * |v.nodes| + 2
  {
    if w != v {
      FromFinds(c, v.nodes, 0, v.known, v.inTy, v.moved, w, f);
    }
  }

  lemma {:induction false} FromFinds(c: Ctx, nodes: seq<Node>, i: nat, known: Known, inTy: bool, moved: set<string>,
                                     w: Visit, f: Finding)
    requires i <= |nodes| && VisitedFrom(c, nodes, i, known, inTy, moved, w) && f in WalkOf(c, w)
    ensures f in Walk(c, nodes, i, known, inTy, moved)
    decreases nodes, 2 * (|nodes| - i) + 1
  {
    if VisitedIn(c, nodes, i, known, inTy, moved, w) {
      InFinds(c, nodes, i, known, inTy, moved, w, f);
    } else {
      FromFinds(c, nodes, i + 1, known, inTy, MovedAfter(c, nodes[i], moved), w, f);
    }
  }

  lemma {:induction false} InFinds(c: Ctx, nodes: seq<Node>, i: nat, known: Known, inTy: bool, moved: set<string>,
                                   w: Visit, f: Finding)
    requires i < |nodes| && VisitedIn(c, nodes, i, known, inTy, moved, w) && f in WalkOf(c, w)
    ensures f in BlockFindings(c, nodes, i, known, inTy, moved)
    decreases nodes, 2 * (|nodes| - i)
  {
    var use := UseOf(c, nodes, i);
    if use == Arms {
      ArmFinds(c, nodes[i].nodes, 0, nodes[i].pos, known, inTy, moved, w, f);
    } else {
      VisitedFinds(c, Visit(nodes[i].nodes, InnerKnown(nodes, i, use, known), inTy || use == Try,
                            InnerMoved(c, use, moved)), w, f);
    }
  }

  lemma {:induction false} ArmFinds(c: Ctx, arms: seq<Node>, j: nat, pos: nat, known: Known, inTy: bool, moved: set<string>,
                                    w: Visit, f: Finding)
    requires j <= |arms| && |arms| % 2 == 0 && j % 2 == 0 && VisitedArm(c, arms, j, known, inTy, moved, w)
    requires f in WalkOf(c, w)
    ensures f in ArmFindings(c, arms, j, pos, known, inTy, moved)
    decreases arms, 2 * (|arms| - j) + 3
  {
    if arms[j].Blk? && arms[j + 1].Blk? && Visited(c, Visit(arms[j + 1].nodes, known, inTy, moved), w) {
      VisitedFinds(c, Visit(arms[j + 1].nodes, known, inTy, moved), w, f);
    } else {
      ArmFinds(c, arms, j + 2, pos, known, inTy, moved, w, f);
    }
  }

  /** Every finding of the first list is in the second. */
  ghost predicate Part(a: seq<Finding>, b: seq<Finding>) {
    forall f | f in a :: f in b
  }

  lemma PartOn(a: seq<Finding>, b: seq<Finding>, e: seq<Finding>)
    requires Part(a, b) && Part(b, e)
    ensures Part(a, e)
  {
  }

  /** The node at k is judged by the walk, with some marks. */
  ghost predicate Judged(c: Ctx, nodes: seq<Node>, i: nat, k: nat, known: Known, inTy: bool, moved: set<string>, m: set<string>)
    requires i <= |nodes| && k < |nodes|
  {
    && Part(LeafFindings(c, nodes, k, known, inTy, m), Walk(c, nodes, i, known, inTy, moved))
    && Part(BlockFindings(c, nodes, k, known, inTy, m), Walk(c, nodes, i, known, inTy, moved))
  }

  /** The walk of the block at k, whose marks are m. */
  lemma {:induction false} VisitedAt(c: Ctx, nodes: seq<Node>, i: nat, k: nat, known: Known, inTy: bool, moved: set<string>)
    returns (m: set<string>)
    requires i <= k < |nodes|
    ensures forall w | VisitedIn(c, nodes, k, known, inTy, m, w) :: VisitedFrom(c, nodes, i, known, inTy, moved, w)
    ensures Judged(c, nodes, i, k, known, inTy, moved, m)
    decreases k - i
  {
    if i == k {
      m := moved;
      WalkParts(c, nodes, i, known, inTy, moved);
    } else {
      var after := MovedAfter(c, nodes[i], moved);
      m := VisitedAt(c, nodes, i + 1, k, known, inTy, after);
      JudgedEarlier(c, nodes, i, k, known, inTy, moved, after, m);
    }
  }

  lemma JudgedEarlier(c: Ctx, nodes: seq<Node>, i: nat, k: nat, known: Known, inTy: bool, moved: set<string>,
                      after: set<string>, m: set<string>)
    requires i < k < |nodes| && after == MovedAfter(c, nodes[i], moved) && Judged(c, nodes, i + 1, k, known, inTy, after, m)
    ensures Judged(c, nodes, i, k, known, inTy, moved, m)
  {
    var all, rest := Walk(c, nodes, i, known, inTy, moved), Walk(c, nodes, i + 1, known, inTy, after);
    WalkParts(c, nodes, i, known, inTy, moved);
    PartOn(LeafFindings(c, nodes, k, known, inTy, m), rest, all);
    PartOn(BlockFindings(c, nodes, k, known, inTy, m), rest, all);
  }

  lemma WalkParts(c: Ctx, nodes: seq<Node>, i: nat, known: Known, inTy: bool, moved: set<string>)
    requires i < |nodes|
    ensures var all := Walk(c, nodes, i, known, inTy, moved);
      && Part(LeafFindings(c, nodes, i, known, inTy, moved), all)
      && Part(BlockFindings(c, nodes, i, known, inTy, moved), all)
      && Part(Walk(c, nodes, i + 1, known, inTy, MovedAfter(c, nodes[i], moved)), all)
  {
    FourParts(Walk(c, nodes, i, known, inTy, moved),
              if known.Exact? then [Runs(nodes[i].pos, known.caps)] else [],
              LeafFindings(c, nodes, i, known, inTy, moved), BlockFindings(c, nodes, i, known, inTy, moved),
              Walk(c, nodes, i + 1, known, inTy, MovedAfter(c, nodes[i], moved)));
  }

  lemma FourParts(all: seq<Finding>, a: seq<Finding>, b: seq<Finding>, e: seq<Finding>, g: seq<Finding>)
    requires all == a + b + e + g
    ensures Part(b, all) && Part(e, all) && Part(g, all)
  {
  }

  // ---- code inside code

  ghost predicate Nested(nodes: seq<Node>, s: seq<Node>)
    decreases nodes
  {
    s == nodes || exists j :: 0 <= j < |nodes| && nodes[j].Blk? && Nested(nodes[j].nodes, s)
  }

  lemma NestedIn(nodes: seq<Node>, j: nat, s: seq<Node>)
    requires j < |nodes| && nodes[j].Blk? && Nested(nodes[j].nodes, s)
    ensures Nested(nodes, s)
  {
  }

  lemma {:induction false} VisitedNested(c: Ctx, v: Visit, w: Visit)
    requires Visited(c, v, w)
    ensures Nested(v.nodes, w.nodes)
    decreases v.nodes, 2 * |v.nodes| + 2
  {
    if w != v {
      FromNested(c, v.nodes, 0, v.known, v.inTy, v.moved, w);
    }
  }

  lemma {:induction false} FromNested(c: Ctx, nodes: seq<Node>, i: nat, known: Known, inTy: bool, moved: set<string>, w: Visit)
    requires i <= |nodes| && VisitedFrom(c, nodes, i, known, inTy, moved, w)
    ensures Nested(nodes, w.nodes)
    decreases nodes, 2 * (|nodes| - i) + 1
  {
    if VisitedIn(c, nodes, i, known, inTy, moved, w) {
      var use := UseOf(c, nodes, i);
      if use == Arms {
        ArmNested(c, nodes[i].nodes, 0, known, inTy, moved, w);
      } else {
        VisitedNested(c, Visit(nodes[i].nodes, InnerKnown(nodes, i, use, known), inTy || use == Try,
                               InnerMoved(c, use, moved)), w);
      }
      NestedIn(nodes, i, w.nodes);
    } else {
      FromNested(c, nodes, i + 1, known, inTy, MovedAfter(c, nodes[i], moved), w);
    }
  }

  lemma {:induction false} ArmNested(c: Ctx, arms: seq<Node>, j: nat, known: Known, inTy: bool, moved: set<string>, w: Visit)
    requires j <= |arms| && |arms| % 2 == 0 && j % 2 == 0 && VisitedArm(c, arms, j, known, inTy, moved, w)
    ensures Nested(arms, w.nodes)
    decreases arms, 2 * (|arms| - j) + 3
  {
    if arms[j].Blk? && arms[j + 1].Blk? && Visited(c, Visit(arms[j + 1].nodes, known, inTy, moved), w) {
      VisitedNested(c, Visit(arms[j + 1].nodes, known, inTy, moved), w);
      NestedIn(arms, j + 1, w.nodes);
    } else {
      ArmNested(c, arms, j + 2, known, inTy, moved, w);
    }
  }

  // ---- one match in a program

  /** The `??` at i takes arms that are written just before it, none malformed; and
      with `behind`, `ty` leaves the value they meet and no result is left over. */
  ghost predicate Guarded(nodes: seq<Node>, i: nat, behind: bool) {
    && OpAt(nodes, i, "??") && BlkAt(nodes, i - 1)
    && |nodes[i - 1].nodes| % 2 == 0 && Sound(nodes[i - 1].nodes, 0)
    && (behind ==> i >= 2 && nodes[i - 2].Name? && nodes[i - 2].name == "ty" && !Leaves(nodes[i - 1].nodes))
  }

  /** In this code, at any depth, the node at p is such a match, and `ty` is not bound. */
  ghost predicate Hosts(p: nat, behind: bool, nodes: seq<Node>)
    decreases nodes
  {
    forall i | 0 <= i < |nodes| ::
      && (nodes[i].pos == p ==> Guarded(nodes, i, behind))
      && (nodes[i].Bind? ==> nodes[i].name != "ty")
      && (nodes[i].Blk? ==> Hosts(p, behind, nodes[i].nodes))
  }

  lemma {:induction false} BindsAt(nodes: seq<Node>, i: nat)
    requires i < |nodes|
    ensures nodes[i].Bind? ==> nodes[i].name in Binds(nodes)
    ensures nodes[i].Blk? ==> Binds(nodes[i].nodes) <= Binds(nodes)
  {
    if i > 0 {
      BindsAt(nodes[1..], i - 1);
    }
  }

  lemma {:induction false} HostsElsewhere(p: nat, behind: bool, nodes: seq<Node>)
    requires p !in Positions(nodes) && "ty" !in Binds(nodes)
    ensures Hosts(p, behind, nodes)
    decreases nodes
  {
    forall i | 0 <= i < |nodes|
      ensures nodes[i].pos != p && (nodes[i].Bind? ==> nodes[i].name != "ty")
      ensures nodes[i].Blk? ==> Hosts(p, behind, nodes[i].nodes)
    {
      PositionsAt(nodes, i);
      BindsAt(nodes, i);
      if nodes[i].Blk? {
        HostsElsewhere(p, behind, nodes[i].nodes);
      }
    }
  }

  lemma {:induction false} NestedPosition(nodes: seq<Node>, s: seq<Node>, k: nat)
    requires Nested(nodes, s) && k < |s|
    ensures s[k].pos in Positions(nodes)
    decreases nodes
  {
    if s == nodes {
      PositionsAt(nodes, k);
    } else {
      var j :| 0 <= j < |nodes| && nodes[j].Blk? && Nested(nodes[j].nodes, s);
      NestedPosition(nodes[j].nodes, s, k);
      PositionsAt(nodes, j);
    }
  }

  /** As positions are distinct, one match makes the whole program such code. */
  lemma {:induction false} HostsNested(p: nat, behind: bool, nodes: seq<Node>, s: seq<Node>, k: nat)
    requires Distinct(nodes) && "ty" !in Binds(nodes) && Nested(nodes, s)
    requires k < |s| && s[k].pos == p && Guarded(s, k, behind)
    ensures Hosts(p, behind, nodes)
    decreases nodes
  {
    if s == nodes {
      HostsHere(p, behind, nodes, k);
    } else {
      var j :| 0 <= j < |nodes| && nodes[j].Blk? && Nested(nodes[j].nodes, s);
      DistinctNodeAt(nodes, j);
      BindsAt(nodes, j);
      NestedPosition(nodes[j].nodes, s, k);
      HostsNested(p, behind, nodes[j].nodes, s, k);
      forall i | 0 <= i < |nodes|
        ensures nodes[i].pos != p && (nodes[i].Bind? ==> nodes[i].name != "ty")
        ensures nodes[i].Blk? ==> Hosts(p, behind, nodes[i].nodes)
      {
        BindsAt(nodes, i);
        if i != j {
          Apart(nodes, i, j, p);
          if nodes[i].Blk? {
            HostsElsewhere(p, behind, nodes[i].nodes);
          }
        }
      }
    }
  }

  lemma Apart(nodes: seq<Node>, i: nat, j: nat, p: nat)
    requires Distinct(nodes) && i < |nodes| && j < |nodes| && i != j && p in NodePositions(nodes[j])
    ensures p !in NodePositions(nodes[i])
  {
    if i < j {
      DistinctAt(nodes, i, j);
    } else {
      DistinctAt(nodes, j, i);
    }
  }

  lemma HostsHere(p: nat, behind: bool, nodes: seq<Node>, k: nat)
    requires Distinct(nodes) && "ty" !in Binds(nodes) && k < |nodes| && nodes[k].pos == p && Guarded(nodes, k, behind)
    ensures Hosts(p, behind, nodes)
  {
    forall i | 0 <= i < |nodes|
      ensures nodes[i].pos == p ==> Guarded(nodes, i, behind)
      ensures nodes[i].Bind? ==> nodes[i].name != "ty"
      ensures nodes[i].Blk? ==> Hosts(p, behind, nodes[i].nodes)
    {
      BindsAt(nodes, i);
      if i != k {
        Apart(nodes, i, k, p);
        if nodes[i].Blk? {
          HostsElsewhere(p, behind, nodes[i].nodes);
        }
      }
    }
  }

  // ---- runs

  ghost predicate ValHosts(p: nat, behind: bool, v: Value) {
    match v
    case VBlk(b) => Hosts(p, behind, b)
    case VRes(_, w) => ValHosts(p, behind, w)
    case _ => true
  }

  ghost predicate AllHost(p: nat, behind: bool, vs: seq<Value>) {
    forall i | 0 <= i < |vs| :: ValHosts(p, behind, vs[i])
  }

  ghost predicate EnvHosts(p: nat, behind: bool, env: Env) {
    "ty" !in env && forall x | x in env :: ValHosts(p, behind, env[x])
  }

  ghost predicate StateHosts(p: nat, behind: bool, st: State) {
    AllHost(p, behind, st.stack) && EnvHosts(p, behind, st.env)
  }

  /** The refusals that are ruled out at p. */
  predicate RuledOut(behind: bool, code: string) {
    code == "BAD_PATTERN" || (behind && code == "NO_MATCH")
  }

  ghost predicate Calm(p: nat, behind: bool, seen: set<Event>) {
    forall code | RuledOut(behind, code) :: Refuse(p, code) !in seen
  }

  /** A run that ends with the fault of a match was refused by one. */
  ghost predicate Told(r: Result, seen: set<Event>) {
    r.status.Raised? && RuledOut(true, r.status.code) ==> exists q :: Refuse(q, r.status.code) in seen
  }

  ghost predicate Kept(p: nat, behind: bool, r: Result) {
    && EnvHosts(p, behind, r.st.env) && (r.status.Ran? ==> AllHost(p, behind, r.st.stack))
    && Calm(p, behind, r.seen) && Told(r, r.seen)
  }

  /** The same after the node n has run, which may itself have refused. */
  ghost predicate KeptAt(p: nat, behind: bool, own: set<Event>, r: Result) {
    && EnvHosts(p, behind, r.st.env) && (r.status.Ran? ==> AllHost(p, behind, r.st.stack))
    && Calm(p, behind, r.seen + own) && Told(r, r.seen + own)
  }

  lemma KeptThen(p: nat, behind: bool, a: set<Event>, r: Result)
    requires Calm(p, behind, a) && Kept(p, behind, r)
    ensures Kept(p, behind, Then(a, r))
  {
    if r.status.Raised? && RuledOut(true, r.status.code) {
      var q :| Refuse(q, r.status.code) in r.seen;
      assert Refuse(q, r.status.code) in a + r.seen;
    }
  }

  lemma KeptOwn(p: nat, behind: bool, own: set<Event>, r: Result)
    requires Kept(p, behind, r) && Calm(p, behind, own)
    ensures KeptAt(p, behind, own, r)
  {
    if r.status.Raised? && RuledOut(true, r.status.code) {
      var q :| Refuse(q, r.status.code) in r.seen;
      assert Refuse(q, r.status.code) in r.seen + own;
    }
  }

  /** What is on top before the node at i: a block that was just written, and what
      `ty` just left. */
  ghost predicate Ready(nodes: seq<Node>, i: nat, stack: seq<Value>)
    requires i <= |nodes|
  {
    var n := |stack|;
    && (i >= 1 && nodes[i - 1].Blk? ==> n >= 1 && stack[n - 1] == VBlk(nodes[i - 1].nodes))
    && (i >= 1 && TyAt(nodes, i - 1) ==> n >= 1 && stack[n - 1].VRes?)
    && (i >= 2 && nodes[i - 1].Blk? && TyAt(nodes, i - 2) ==> n >= 2 && stack[n - 2].VRes?)
  }

  predicate TyAt(nodes: seq<Node>, i: nat) {
    i < |nodes| && nodes[i].Name? && nodes[i].name == "ty"
  }

  /** Operators that run no code leave values that were there, and numbers. */
  lemma BasicValues(sym: string, stack: seq<Value>)
    ensures match Basic(sym, stack)
      case Err(code) => !RuledOut(true, code)
      case Next(s) => forall i :: 0 <= i < |s| ==> s[i] in stack || IsNum(s[i])
      case Print(s, _) => forall i :: 0 <= i < |s| ==> s[i] in stack || IsNum(s[i])
  {
    var n := |stack|;
    if n >= 2 {
      var a, b, rest := stack[n - 2], stack[n - 1], stack[..n - 2];
      if sym in ARITH && IsNum(a) && IsNum(b) {
        ArithValue(sym, rest, a, b);
      }
      CompareValue(sym, rest, a, b);
    }
  }

  lemma ArithValue(sym: string, rest: seq<Value>, a: Value, b: Value)
    requires sym in ARITH && IsNum(a) && IsNum(b)
    ensures (Arith(sym, rest, a, b).Err? && !RuledOut(true, Arith(sym, rest, a, b).code)) || (Arith(sym, rest, a, b).Next? && Grown(rest, Arith(sym, rest, a, b).stack))
  {
  }

  lemma CompareValue(sym: string, rest: seq<Value>, a: Value, b: Value)
    ensures (Compare(sym, rest, a, b).Err? && !RuledOut(true, Compare(sym, rest, a, b).code)) || (Compare(sym, rest, a, b).Next? && Grown(rest, Compare(sym, rest, a, b).stack))
  {
  }

  ghost predicate Grown(rest: seq<Value>, s: seq<Value>) {
    |s| == |rest| + 1 && s[..|rest|] == rest && IsNum(s[|rest|])
  }

  lemma BasicKept(p: nat, behind: bool, sym: string, st: State, fuel: nat)
    requires StateHosts(p, behind, st) && sym !in {"@", "?", ";", "??"}
    ensures Kept(p, behind, ExecOp(sym, st, fuel))
  {
    BasicValues(sym, st.stack);
    var r := ExecOp(sym, st, fuel);
    if r.status.Ran? {
      forall i | 0 <= i < |r.st.stack|
        ensures ValHosts(p, behind, r.st.stack[i])
      {
        if r.st.stack[i] in st.stack {
          var k :| 0 <= k < |st.stack| && st.stack[k] == r.st.stack[i];
          assert ValHosts(p, behind, st.stack[k]);
        }
      }
    }
  }

  lemma PushHosts(p: nat, behind: bool, st: State, k: nat, v: Value)
    requires StateHosts(p, behind, st) && k <= |st.stack| && ValHosts(p, behind, v)
    ensures StateHosts(p, behind, Pop(st, k)) && StateHosts(p, behind, Push(Pop(st, k), v))
    ensures StateHosts(p, behind, Push(st, v))
  {
  }

  lemma {:induction false} ChosenHosts(p: nat, behind: bool, arms: seq<Node>, j: nat, v: Value)
    requires j <= |arms| && |arms| % 2 == 0 && j % 2 == 0 && Hosts(p, behind, arms) && ValHosts(p, behind, v)
    ensures match Choose(arms, j, v)
      case Refused(_) => true
      case Chosen(body, w) => Hosts(p, behind, body) && ValHosts(p, behind, w)
    decreases |arms| - j
  {
    if j < |arms| {
      assert arms[j + 1].Blk? ==> Hosts(p, behind, arms[j + 1].nodes);
      ChosenHosts(p, behind, arms, j + 2, v);
    }
  }

  lemma {:induction false} KeepSeq(p: nat, behind: bool, nodes: seq<Node>, i: nat, st: State, fuel: nat)
    requires i <= |nodes| && Hosts(p, behind, nodes) && StateHosts(p, behind, st) && Ready(nodes, i, st.stack)
    ensures Kept(p, behind, ExecSeq(nodes, i, st, fuel))
    decreases fuel, Room(st), |nodes| - i + 6
  {
    if i < |nodes| {
      var e, r := Exec(nodes[i], st, fuel), ExecNode(nodes[i], st, fuel);
      KeepExec(p, behind, nodes, i, st, fuel);
      NodeKept(p, behind, nodes[i], st, e, r);
      if r.status.Ran? {
        ReadyNext(nodes, i, st, fuel);
        KeepSeq(p, behind, nodes, i + 1, r.st, fuel);
        KeptThen(p, behind, r.seen, ExecSeq(nodes, i + 1, r.st, fuel));
      }
    }
  }

  lemma NodeKept(p: nat, behind: bool, n: Node, st: State, e: Result, r: Result)
    requires KeptAt(p, behind, Refusal(n, st), e) && r.status == e.status && r.st == e.st
    requires e.seen + Refusal(n, st) <= r.seen
    requires r.seen == {Enter(n.pos, st.caps)} + Refusal(n, st) + e.seen
      + (match e.status case Ran => {Leave(n.pos)} case Raised(code) => {Raise(n.pos, code)} case Spent => {})
    ensures Kept(p, behind, r)
  {
    forall code | RuledOut(behind, code)
      ensures Refuse(p, code) !in r.seen
    {
      assert Refuse(p, code) !in e.seen + Refusal(n, st);
    }
    if e.status.Raised? && RuledOut(true, e.status.code) {
      var q :| Refuse(q, e.status.code) in e.seen + Refusal(n, st);
      assert Refuse(q, e.status.code) in r.seen;
    }
  }

  lemma ReadyNext(nodes: seq<Node>, i: nat, st: State, fuel: nat)
    requires i < |nodes| && Ready(nodes, i, st.stack) && Exec(nodes[i], st, fuel).status.Ran? && "ty" !in st.env
    ensures Ready(nodes, i + 1, Exec(nodes[i], st, fuel).st.stack)
  {
    if TyAt(nodes, i) {
      assert Exec(nodes[i], st, fuel) == ExecWord("ty", st, fuel);
      if HasBlock(st, 1) {
        TyLeaves(Top(st, 1).nodes, Pop(st, 1), fuel);
        assert ExecWord("ty", st, fuel) == ExecTry(Top(st, 1).nodes, Pop(st, 1), fuel);
      }
    }
  }

  lemma TyLeaves(body: seq<Node>, st: State, fuel: nat)
    ensures var r := ExecTry(body, st, fuel); r.status.Ran? ==> r.st.stack != [] && r.st.stack[|r.st.stack| - 1].VRes?
  {
  }

  lemma {:induction false} KeepExec(p: nat, behind: bool, nodes: seq<Node>, i: nat, st: State, fuel: nat)
    requires i < |nodes| && Hosts(p, behind, nodes) && StateHosts(p, behind, st) && Ready(nodes, i, st.stack)
    ensures KeptAt(p, behind, Refusal(nodes[i], st), Exec(nodes[i], st, fuel))
    decreases fuel, Room(st), |nodes| - i + 5
  {
    var n := nodes[i];
    assert n.pos == p ==> Guarded(nodes, i, behind);
    if OpAt(nodes, i, "??") && HasBlock(st, 1) && |st.stack| >= 2 {
      if n.pos == p {
        GuardedTakes(p, behind, nodes, i, st);
      }
      KeepMatch(p, behind, n, st, fuel);
    } else {
      if n.Op? {
        assert Exec(n, st, fuel) == ExecOp(n.sym, st, fuel);
        KeepOp(p, behind, n.sym, st, fuel);
      } else if n.Name? && n.name !in st.env && n.name in BUILTINS {
        assert Exec(n, st, fuel) == ExecWord(n.name, st, fuel);
        KeepWord(p, behind, n.name, st, fuel);
      } else {
        KeepPlain(p, behind, nodes, i, st, fuel);
      }
      KeptOwn(p, behind, {}, Exec(n, st, fuel));
    }
  }

  lemma KeepPlain(p: nat, behind: bool, nodes: seq<Node>, i: nat, st: State, fuel: nat)
    requires i < |nodes| && Hosts(p, behind, nodes) && StateHosts(p, behind, st)
    requires !nodes[i].Op? && (nodes[i].Name? ==> nodes[i].name in st.env || nodes[i].name !in BUILTINS)
    ensures Kept(p, behind, Exec(nodes[i], st, fuel))
  {
    var n := nodes[i];
    assert n.Blk? ==> Hosts(p, behind, n.nodes);
    assert n.Bind? ==> n.name != "ty";
  }

  /** The match at p takes an arm for its value, or refuses only what is not ruled out. */
  lemma GuardedTakes(p: nat, behind: bool, nodes: seq<Node>, i: nat, st: State)
    requires i < |nodes| && nodes[i].pos == p && Ready(nodes, i, st.stack) && Guarded(nodes, i, behind)
    ensures Calm(p, behind, Refusal(nodes[i], st))
  {
    var arms := nodes[i - 1].nodes;
    assert HasBlock(st, 1) && Top(st, 1) == VBlk(arms);
    if |st.stack| >= 2 {
      var v := Top(st, 2);
      SoundChoice(arms, 0, v);
      if behind {
        assert TyAt(nodes, i - 2) && v.VRes?;
        assert Choose(arms, 0, VRes(v.ok, v.val)) != Refused("NO_MATCH");
      }
    }
  }

  lemma {:induction false} KeepMatch(p: nat, behind: bool, n: Node, st: State, fuel: nat)
    requires StateHosts(p, behind, st) && n.Op? && n.sym == "??" && HasBlock(st, 1) && |st.stack| >= 2
    requires n.pos == p ==> Calm(p, behind, Refusal(n, st))
    ensures KeptAt(p, behind, Refusal(n, st), Exec(n, st, fuel))
    decreases fuel, Room(st), 3
  {
    var arms, v, st1 := Top(st, 1).nodes, Top(st, 2), Pop(st, 2);
    assert Exec(n, st, fuel) == ExecOp("??", st, fuel) == ExecMatch(arms, v, st1, fuel);
    assert ValHosts(p, behind, Top(st, 1)) && ValHosts(p, behind, v);
    if |arms| % 2 == 0 {
      ChosenHosts(p, behind, arms, 0, v);
      match Choose(arms, 0, v)
      case Refused(code) =>
        assert Refusal(n, st) == {Refuse(n.pos, code)};
        RefusedAt(p, behind, n.pos, code, Fail(code, st1));
      case Chosen(body, w) =>
        PushHosts(p, behind, st1, 0, w);
        KeepInvoke(p, behind, body, Push(st1, w), fuel);
        KeptOwn(p, behind, Refusal(n, st), Exec(n, st, fuel));
    } else {
      assert Refusal(n, st) == {Refuse(n.pos, "BAD_PATTERN")};
      RefusedAt(p, behind, n.pos, "BAD_PATTERN", Fail("BAD_PATTERN", st1));
    }
  }

  lemma RefusedAt(p: nat, behind: bool, q: nat, code: string, r: Result)
    requires EnvHosts(p, behind, r.st.env) && r.status == Raised(code) && r.seen == {}
    requires q == p ==> Calm(p, behind, {Refuse(q, code)})
    ensures KeptAt(p, behind, {Refuse(q, code)}, r)
  {
    assert Refuse(q, code) in r.seen + {Refuse(q, code)};
  }

  lemma {:induction false} KeepOp(p: nat, behind: bool, sym: string, st: State, fuel: nat)
    requires StateHosts(p, behind, st) && (sym == "??" ==> !HasBlock(st, 1) || |st.stack| < 2)
    ensures Kept(p, behind, ExecOp(sym, st, fuel))
    decreases fuel, Room(st), 4
  {
    if sym == "@" && HasBlock(st, 1) {
      assert ValHosts(p, behind, Top(st, 1));
      KeepInvoke(p, behind, Top(st, 1).nodes, Pop(st, 1), fuel);
    } else if sym == "?" {
      if HasBlock(st, 1) && HasBlock(st, 2) && |st.stack| >= 3 {
        assert ValHosts(p, behind, Top(st, 1)) && ValHosts(p, behind, Top(st, 2));
      }
    } else if sym == ";" && HasBlock(st, 1) && HasBlock(st, 2) {
      assert ValHosts(p, behind, Top(st, 1)) && ValHosts(p, behind, Top(st, 2));
      KeepWhile(p, behind, Top(st, 2).nodes, Top(st, 1).nodes, Pop(st, 2), fuel);
    } else if sym !in {"@", "?", ";", "??"} {
      BasicKept(p, behind, sym, st, fuel);
    }
  }

  lemma {:induction false} KeepWhile(p: nat, behind: bool, cond: seq<Node>, body: seq<Node>, st: State, fuel: nat)
    requires Hosts(p, behind, cond) && Hosts(p, behind, body) && StateHosts(p, behind, st)
    ensures Kept(p, behind, While(cond, body, st, fuel))
    decreases fuel, Room(st), 3
  {
    KeepInvoke(p, behind, cond, st, fuel);
    var r := Invoke(cond, st, fuel);
    if r.status.Ran? && r.st.stack != [] && Truthy(Top(r.st, 1)) {
      var st1 := Pop(r.st, 1);
      KeepInvoke(p, behind, body, st1, fuel);
      var s := Invoke(body, st1, fuel);
      if s.status.Ran? && fuel > 0 {
        KeepWhile(p, behind, cond, body, s.st, fuel - 1);
        KeptThen(p, behind, s.seen, While(cond, body, s.st, fuel - 1));
        KeptThen(p, behind, r.seen, Then(s.seen, While(cond, body, s.st, fuel - 1)));
      } else {
        KeptThen(p, behind, r.seen, if s.status.Ran? then s.(status := Spent) else s);
      }
    }
  }

  lemma {:induction false} KeepInvoke(p: nat, behind: bool, b: seq<Node>, st: State, fuel: nat)
    requires Hosts(p, behind, b) && StateHosts(p, behind, st)
    ensures Kept(p, behind, Invoke(b, st, fuel))
    decreases fuel, Room(st), 2
  {
    if st.depth < MAX_INVOKE_DEPTH {
      KeepSeq(p, behind, b, 0, st.(depth := st.depth + 1), fuel);
    }
  }

  lemma {:induction false} KeepWord(p: nat, behind: bool, x: string, st: State, fuel: nat)
    requires x in BUILTINS && StateHosts(p, behind, st)
    ensures Kept(p, behind, ExecWord(x, st, fuel))
    decreases fuel, Room(st), 4
  {
    if x == "gr" && HasBlock(st, 1) && |st.stack| >= 2 && Top(st, 2).VCap? {
      var cap, b, st1 := Top(st, 2).cap, Top(st, 1).nodes, Pop(st, 2);
      assert ValHosts(p, behind, Top(st, 1));
      KeepInvoke(p, behind, b, st1.(caps := st1.caps + {cap}), fuel);
      assert ExecWord(x, st, fuel) == ExecGrant(cap, b, st1, fuel);
    } else if x == "ty" && HasBlock(st, 1) {
      var b, st1 := Top(st, 1).nodes, Pop(st, 1);
      assert ValHosts(p, behind, Top(st, 1));
      KeepInvoke(p, behind, b, st1.(stack := []), fuel);
      assert ExecWord(x, st, fuel) == ExecTry(b, st1, fuel);
      var r := Invoke(b, st1.(stack := []), fuel);
      if r.status.Ran? && |r.st.stack| == 1 {
        assert ValHosts(p, behind, VRes(true, r.st.stack[0]));
      }
    }
  }

  // ---- the promises

  /** A program that the parser delivers and that does not bind `ty`. */
  ghost predicate TyProgram(program: seq<Node>) {
    Distinct(program) && "ty" !in Binds(program)
  }

  lemma RunKeeps(program: seq<Node>, fuel: nat, p: nat, behind: bool, s: seq<Node>, k: nat)
    requires TyProgram(program) && Nested(program, s)
    requires k < |s| && s[k].pos == p && Guarded(s, k, behind)
    ensures Calm(p, behind, Run(program, fuel).seen)
  {
    HostsNested(p, behind, program, s, k);
    KeepSeq(p, behind, program, 0, BEGIN, fuel);
  }

  /** The match at k + 1 on the arms at k, and the walk that comes to it. */
  ghost predicate MatchAt(c: Ctx, program: seq<Node>, w: Visit, k: nat) {
    && Visited(c, Visit(program, Exact({}), false, {}), w)
    && BlkAt(w.nodes, k) && OpAt(w.nodes, k + 1, "??")
  }

  /** Neither the arms nor one of their patterns is reported as malformed. */
  ghost predicate ArmsClean(program: seq<Node>, arms: seq<Node>, pos: nat) {
    NoBad(Check(program), arms, pos, 0)
  }

  /** Behind a result, and not reported as unhandled. */
  ghost predicate Covered(program: seq<Node>, w: Visit, k: nat)
    requires k < |w.nodes|
  {
    && WordAt(Context(program, true), w.nodes, k - 1, "ty") && BlkAt(w.nodes, k - 2)
    && Diag(w.nodes[k].pos, NotExhaustive) !in Check(program)
  }

  /** In every run of every program that the parser delivers and that does not bind
      `ty`: a match that a walk comes to, and whose arms are not reported as
      malformed, never refuses with BAD_PATTERN; one behind `ty` that is not reported
      as unhandled either never refuses with NO_MATCH. */
  lemma UnreportedNeverRefuses(program: seq<Node>, fuel: nat, w: Visit, k: nat)
    requires TyProgram(program) && MatchAt(Context(program, true), program, w, k)
    requires ArmsClean(program, w.nodes[k].nodes, w.nodes[k].pos)
    ensures var seen, p := Run(program, fuel).seen, w.nodes[k + 1].pos;
      Refuse(p, "BAD_PATTERN") !in seen && (Covered(program, w, k) ==> Refuse(p, "NO_MATCH") !in seen)
  {
    var c, p, behind := Context(program, true), w.nodes[k + 1].pos, Covered(program, w, k);
    VisitedNested(c, Visit(program, Exact({}), false, {}), w);
    MatchGuarded(c, program, w, k, behind);
    RunKeeps(program, fuel, p, behind, w.nodes, k + 1);
    assert RuledOut(behind, "BAD_PATTERN") && (behind ==> RuledOut(behind, "NO_MATCH"));
  }

  /** And a run that ends with one of the two faults was refused by some match. */
  lemma FaultIsRefusal(program: seq<Node>, fuel: nat)
    requires "ty" !in Binds(program)
    ensures Told(Run(program, fuel), Run(program, fuel).seen)
  {
    var p := Above(Positions(program));
    HostsElsewhere(p, false, program);
    KeepSeq(p, false, program, 0, BEGIN, fuel);
  }

  /** A position that no node has. */
  lemma {:induction false} Above(ps: set<nat>) returns (p: nat)
    ensures p !in ps && forall q | q in ps :: q < p
    decreases ps
  {
    p := 0;
    if ps != {} {
      var x :| x in ps;
      var y := Above(ps - {x});
      p := if x < y then y else x + 1;
      forall q | q in ps
        ensures q < p
      {
        assert q == x || q in ps - {x};
      }
    }
  }

  lemma MatchGuarded(c: Ctx, program: seq<Node>, w: Visit, k: nat, behind: bool)
    requires c == Context(program, true) && TyProgram(program) && MatchAt(c, program, w, k)
    requires ArmsClean(program, w.nodes[k].nodes, w.nodes[k].pos)
    requires behind ==> Covered(program, w, k)
    ensures Guarded(w.nodes, k + 1, behind)
  {
    var arms, pos := w.nodes[k].nodes, w.nodes[k].pos;
    var onResult := WordAt(c, w.nodes, k - 1, "ty") && BlkAt(w.nodes, k - 2);
    var m := VisitedAt(c, w.nodes, 0, k, w.known, w.inTy, w.moved);
    var fs := ArmsFindings(c, arms, pos, w.known, w.inTy, onResult, m);
    assert BlockFindings(c, w.nodes, k, w.known, w.inTy, m) == fs;
    forall f | f in fs && f.Diag?
      ensures f in Check(program)
    {
      VisitedFinds(c, Visit(program, Exact({}), false, {}), w, f);
      DiagsOfIn(Findings(program, true), f);
    }
    assert NoBad(fs, arms, pos, 0);
    VisitedNested(c, Visit(program, Exact({}), false, {}), w);
    NestedDistinct(program, w.nodes);
    DistinctNodeAt(w.nodes, k);
    BadArmsIff(c, arms, pos, w.known, w.inTy, onResult, m);
    SoundIff(arms);
    ExhaustiveIff(c, arms, pos, w.known, w.inTy, onResult, m);
  }

  lemma {:induction false} NestedDistinct(nodes: seq<Node>, s: seq<Node>)
    requires Distinct(nodes) && Nested(nodes, s)
    ensures Distinct(s)
    decreases nodes
  {
    if s != nodes {
      var j :| 0 <= j < |nodes| && nodes[j].Blk? && Nested(nodes[j].nodes, s);
      DistinctNodeAt(nodes, j);
      NestedDistinct(nodes[j].nodes, s);
    }
  }

  // ---- programs without malformed arms: the checker comes to every match

  ghost predicate NoBadArms(fs: seq<Finding>) {
    forall f | f in fs :: f.Diag? ==> f.rule != BadArms
  }

  /** The body at j is walked, and what is found there is found. */
  lemma {:induction false} ArmVisited(c: Ctx, arms: seq<Node>, i: nat, j: nat, pos: nat, known: Known, inTy: bool,
                                      moved: set<string>, w: Visit)
    requires i <= j && j + 1 < |arms| && |arms| % 2 == 0 && i % 2 == 0 && j % 2 == 0
    requires arms[j].Blk? && arms[j + 1].Blk?
    ensures Visited(c, Visit(arms[j + 1].nodes, known, inTy, moved), w) ==> VisitedArm(c, arms, i, known, inTy, moved, w)
    ensures forall f | f in Walk(c, arms[j + 1].nodes, 0, known, inTy, moved) ::
      f in ArmFindings(c, arms, i, pos, known, inTy, moved)
    decreases j - i
  {
    if i < j {
      ArmVisited(c, arms, i + 2, j, pos, known, inTy, moved, w);
    }
  }

  lemma {:induction false} SoundAt(arms: seq<Node>, j: nat, k: nat)
    requires j <= k < |arms| && |arms| % 2 == 0 && j % 2 == 0 && Sound(arms, j)
    ensures arms[k].Blk? && (k % 2 == 0 ==> Label(arms[k]) != "")
    decreases k - j
  {
    if k >= j + 2 {
      SoundAt(arms, j + 2, k);
    }
  }

  /** Where no arms are reported as malformed, code of two tokens or more is either
      walked or the arms of a match. */
  lemma {:induction false} CleanVisits(c: Ctx, v: Visit, s: seq<Node>, k: nat) returns (w: Visit)
    requires Nested(v.nodes, s) && k < |s| && s[k].Op? && |s| > 1 && NoBadArms(WalkOf(c, v))
    ensures Visited(c, v, w) && w.nodes == s
    decreases v.nodes
  {
    if s == v.nodes {
      w := v;
    } else {
      var j :| 0 <= j < |v.nodes| && v.nodes[j].Blk? && Nested(v.nodes[j].nodes, s);
      var m := VisitedAt(c, v.nodes, 0, j, v.known, v.inTy, v.moved);
      var b, use := v.nodes[j].nodes, UseOf(c, v.nodes, j);
      if use == Arms {
        w := CleanArm(c, b, v.nodes[j].pos, v.known, v.inTy, m, s, k,
                      WordAt(c, v.nodes, j - 1, "ty") && BlkAt(v.nodes, j - 2));
      } else {
        w := CleanVisits(c, Visit(b, InnerKnown(v.nodes, j, use, v.known), v.inTy || use == Try, InnerMoved(c, use, m)), s, k);
      }
      assert VisitedIn(c, v.nodes, j, v.known, v.inTy, m, w);
    }
  }

  lemma {:induction false} CleanArm(c: Ctx, arms: seq<Node>, pos: nat, known: Known, inTy: bool, moved: set<string>,
                                    s: seq<Node>, k: nat, onResult: bool)
    returns (w: Visit)
    requires Nested(arms, s) && k < |s| && s[k].Op? && |s| > 1
    requires NoBadArms(ArmsFindings(c, arms, pos, known, inTy, onResult, moved))
    ensures |arms| % 2 == 0 && VisitedArm(c, arms, 0, known, inTy, moved, w) && w.nodes == s
    decreases arms
  {
    CleanSound(c, arms, pos, known, inTy, onResult, moved);
    if s == arms {
      SoundAt(arms, 0, k);
      assert false;
    } else {
      var j :| 0 <= j < |arms| && arms[j].Blk? && Nested(arms[j].nodes, s);
      SoundAt(arms, 0, j);
      if j % 2 == 0 {
        PatternFlat(arms[j], s);
        assert false;
      } else {
        SoundAt(arms, 0, j - 1);
        w := CleanBody(c, arms, j - 1, pos, known, inTy, moved, s, k);
      }
    }
  }

  lemma PatternFlat(pat: Node, s: seq<Node>)
    requires pat.Blk? && Label(pat) != "" && |s| > 1
    ensures !Nested(pat.nodes, s)
  {
  }

  lemma {:induction false} CleanBody(c: Ctx, arms: seq<Node>, j: nat, pos: nat, known: Known, inTy: bool, moved: set<string>,
                                     s: seq<Node>, k: nat)
    returns (w: Visit)
    requires |arms| % 2 == 0 && j % 2 == 0 && j + 1 < |arms| && arms[j].Blk? && arms[j + 1].Blk?
    requires Nested(arms[j + 1].nodes, s) && k < |s| && s[k].Op? && |s| > 1
    requires NoBadArms(ArmFindings(c, arms, 0, pos, known, inTy, moved))
    ensures VisitedArm(c, arms, 0, known, inTy, moved, w) && w.nodes == s
    decreases arms, 0
  {
    var v := Visit(arms[j + 1].nodes, known, inTy, moved);
    ArmVisited(c, arms, 0, j, pos, known, inTy, moved, v);
    w := CleanVisits(c, v, s, k);
    ArmVisited(c, arms, 0, j, pos, known, inTy, moved, w);
  }

  lemma CleanSound(c: Ctx, arms: seq<Node>, pos: nat, known: Known, inTy: bool, onResult: bool, moved: set<string>)
    requires NoBadArms(ArmsFindings(c, arms, pos, known, inTy, onResult, moved))
    ensures |arms| % 2 == 0 && Sound(arms, 0) && NoBadArms(ArmFindings(c, arms, 0, pos, known, inTy, moved))
  {
    OddReported(c, arms, pos, known, inTy, onResult, moved);
    PairsReported(c, arms, pos, known, inTy, onResult, moved);
    UnreportedSound(c, arms, 0, pos, known, inTy, moved);
  }

  lemma OddReported(c: Ctx, arms: seq<Node>, pos: nat, known: Known, inTy: bool, onResult: bool, moved: set<string>)
    ensures |arms| % 2 != 0 ==> Diag(pos, BadArms) in ArmsFindings(c, arms, pos, known, inTy, onResult, moved)
  {
  }

  lemma PairsReported(c: Ctx, arms: seq<Node>, pos: nat, known: Known, inTy: bool, onResult: bool, moved: set<string>)
    requires |arms| % 2 == 0
    ensures Part(ArmFindings(c, arms, 0, pos, known, inTy, moved), ArmsFindings(c, arms, pos, known, inTy, onResult, moved))
  {
  }

  /** So if no arms of a program are reported as malformed, no match in it, at any
      depth, that takes arms written before it refuses with BAD_PATTERN, and none
      behind `ty` that is not reported as unhandled refuses with NO_MATCH. */
  lemma CleanNeverRefuses(program: seq<Node>, fuel: nat, s: seq<Node>, k: nat)
    requires TyProgram(program) && NoBadArms(Check(program))
    requires Nested(program, s) && BlkAt(s, k) && OpAt(s, k + 1, "??")
    ensures var seen, p := Run(program, fuel).seen, s[k + 1].pos;
      && Refuse(p, "BAD_PATTERN") !in seen
      && (WordAt(Context(program, true), s, k - 1, "ty") && BlkAt(s, k - 2) && Diag(s[k].pos, NotExhaustive) !in Check(program)
          ==> Refuse(p, "NO_MATCH") !in seen)
  {
    var c := Context(program, true);
    forall f | f in Findings(program, true) && f.Diag?
      ensures f.rule != BadArms
    {
      DiagsOfIn(Findings(program, true), f);
    }
    var w := CleanVisits(c, Visit(program, Exact({}), false, {}), s, k + 1);
    UnreportedNeverRefuses(program, fuel, w, k);
  }

  // ---- denials that must be reported

  /** An `rq` on a literal, walked outside `ty` under an exact authority that lacks it. */
  ghost predicate DeniedAt(program: seq<Node>, w: Visit, k: nat) {
    var c := Context(program, true);
    && Visited(c, Visit(program, Exact({}), false, {}), w)
    && 0 < k < |w.nodes| && RqAt(c, w.nodes, k) && w.known.Exact? && !w.inTy && w.nodes[k - 1].cap !in w.known.caps
  }

  /** The checker leaves none of them out. */
  lemma DenialIsReported(program: seq<Node>, w: Visit, k: nat)
    requires DeniedAt(program, w, k)
    ensures Diag(w.nodes[k].pos, Denied) in Check(program)
  {
    var c, f := Context(program, true), Diag(w.nodes[k].pos, Denied);
    var m := VisitedAt(c, w.nodes, 0, k - 1, w.known, w.inTy, w.moved);
    assert f in LeafFindings(c, w.nodes, k - 1, w.known, w.inTy, m);
    VisitedFinds(c, Visit(program, Exact({}), false, {}), w, f);
    DiagsOfIn(Findings(program, true), f);
  }

  /** Nor an `rq` that nothing in the program can grant. */
  lemma NeverGrantedIsReported(program: seq<Node>, w: Visit, k: nat)
    requires var c := Context(program, true);
      && Visited(c, Visit(program, Exact({}), false, {}), w)
      && 0 < k < |w.nodes| && RqAt(c, w.nodes, k) && !c.usesTy && w.nodes[k - 1].cap !in c.grantable && !w.inTy
    ensures Diag(w.nodes[k].pos, Denied) in Check(program) || Diag(w.nodes[k].pos, NeverGranted) in Check(program)
  {
    var c := Context(program, true);
    var f := if w.known.Exact? && w.nodes[k - 1].cap !in w.known.caps then Diag(w.nodes[k].pos, Denied)
             else Diag(w.nodes[k].pos, NeverGranted);
    var m := VisitedAt(c, w.nodes, 0, k - 1, w.known, w.inTy, w.moved);
    assert f in LeafFindings(c, w.nodes, k - 1, w.known, w.inTy, m);
    VisitedFinds(c, Visit(program, Exact({}), false, {}), w, f);
    DiagsOfIn(Findings(program, true), f);
  }

  // ---- names that must be reported

  /** The marks of the walk at k. */
  function MarksAt(c: Ctx, nodes: seq<Node>, i: nat, k: nat, moved: set<string>): set<string>
    requires i <= k <= |nodes|
    decreases k - i
  {
    if i == k then moved else MarksAt(c, nodes, i + 1, k, MovedAfter(c, nodes[i], moved))
  }

  lemma {:induction false} JudgedWith(c: Ctx, nodes: seq<Node>, i: nat, k: nat, known: Known, inTy: bool, moved: set<string>)
    requires i <= k < |nodes|
    ensures Judged(c, nodes, i, k, known, inTy, moved, MarksAt(c, nodes, i, k, moved))
    decreases k - i
  {
    if i == k {
      WalkParts(c, nodes, i, known, inTy, moved);
    } else {
      var after := MovedAfter(c, nodes[i], moved);
      JudgedWith(c, nodes, i + 1, k, known, inTy, after);
      JudgedEarlier(c, nodes, i, k, known, inTy, moved, after, MarksAt(c, nodes, i, k, moved));
    }
  }

  /** What the node at k of a walk is reported for itself, the program is. */
  lemma LeafIsReported(program: seq<Node>, w: Visit, k: nat, f: Finding)
    requires var c := Context(program, true);
      && Visited(c, Visit(program, Exact({}), false, {}), w) && k < |w.nodes| && f.Diag?
      && f in LeafFindings(c, w.nodes, k, w.known, w.inTy, MarksAt(c, w.nodes, 0, k, w.moved))
    ensures f in Check(program)
  {
    var c := Context(program, true);
    JudgedWith(c, w.nodes, 0, k, w.known, w.inTy, w.moved);
    VisitedFinds(c, Visit(program, Exact({}), false, {}), w, f);
    DiagsOfIn(Findings(program, true), f);
  }

  /** A name that nothing binds and that is no word is reported where it is walked,
      and so is moving it. */
  lemma UnboundIsReported(program: seq<Node>, w: Visit, k: nat)
    requires Visited(Context(program, true), Visit(program, Exact({}), false, {}), w) && k < |w.nodes|
    requires w.nodes[k].Move? || (w.nodes[k].Name? && w.nodes[k].name !in BUILTINS)
    requires w.nodes[k].name !in Binds(program)
    ensures Diag(w.nodes[k].pos, Unbound) in Check(program)
  {
    LeafIsReported(program, w, k, Diag(w.nodes[k].pos, Unbound));
  }

  /** Code that neither runs other code nor binds x again. */
  ghost predicate Keeps(c: Ctx, nodes: seq<Node>, i: nat, k: nat, x: string)
    requires i <= k <= |nodes|
  {
    forall m | i <= m < k ::
      && !(nodes[m].Op? && nodes[m].sym in {"@", ";", "??"}) && !(nodes[m].Bind? && nodes[m].name == x)
      && !IsWord(c, nodes[m], "gr") && !IsWord(c, nodes[m], "ty")
  }

  lemma {:induction false} KeepsMark(c: Ctx, nodes: seq<Node>, i: nat, k: nat, moved: set<string>, x: string)
    requires i <= k <= |nodes| && Keeps(c, nodes, i, k, x) && x in moved
    ensures x in MarksAt(c, nodes, i, k, moved)
    decreases k - i
  {
    if i < k {
      KeepsMark(c, nodes, i + 1, k, MovedAfter(c, nodes[i], moved), x);
    }
  }

  lemma {:induction false} MarksSplit(c: Ctx, nodes: seq<Node>, i: nat, j: nat, k: nat, moved: set<string>)
    requires i <= j <= k <= |nodes|
    ensures MarksAt(c, nodes, i, k, moved) == MarksAt(c, nodes, j, k, MarksAt(c, nodes, i, j, moved))
    decreases j - i
  {
    if i < j {
      MarksSplit(c, nodes, i + 1, j, k, MovedAfter(c, nodes[i], moved));
    }
  }

  /** A bound name that was moved out at j, and that nothing since can have bound
      again, is reported at k outside `ty`. */
  lemma MovedIsReported(program: seq<Node>, w: Visit, j: nat, k: nat)
    requires Visited(Context(program, true), Visit(program, Exact({}), false, {}), w) && j < k < |w.nodes|
    requires w.nodes[j].Move? && w.nodes[j].name in Binds(program) && !w.inTy
    requires w.nodes[k].Move? || (w.nodes[k].Name? && w.nodes[k].name !in BUILTINS)
    requires w.nodes[k].name == w.nodes[j].name && Keeps(Context(program, true), w.nodes, j + 1, k, w.nodes[j].name)
    ensures Diag(w.nodes[k].pos, MovedOut) in Check(program)
  {
    var c, x := Context(program, true), w.nodes[j].name;
    var before := MarksAt(c, w.nodes, 0, j, w.moved);
    MarksSplit(c, w.nodes, 0, j, k, w.moved);
    assert MarksAt(c, w.nodes, j, k, before) == MarksAt(c, w.nodes, j + 1, k, before + {x});
    KeepsMark(c, w.nodes, j + 1, k, before + {x}, x);
    LeafIsReported(program, w, k, Diag(w.nodes[k].pos, MovedOut));
  }
}
