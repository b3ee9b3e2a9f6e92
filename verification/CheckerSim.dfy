// The simulation itself, one lemma for each way the machine runs code.

module CheckerSim {
  import opened Syntax
  import opened Machine
  import opened CheckerModel
  import opened CheckerStatic
  import opened CheckerSound

  /** A state in which a sequence may be entered under the given authority. */
  ghost predicate StateOk(c: Ctx, d: set<Finding>, st: State, known: Known, inTy: bool, moved: set<string>) {
    && Core(c) && (known.Unknown? ==> inTy)
    && EnvOk(c, d, st.env) && CapsOk(c, st.caps, known) && moved !! st.env.Keys
  }

  /** After the node at i: what Post asks, and a state to go on from. */
  ghost predicate NodePost(c: Ctx, d: set<Finding>, nodes: seq<Node>, i: nat, r: Result,
                           known: Known, inTy: bool, moved: set<string>)
    requires i < |nodes|
  {
    && PostSeen(c, d, r, inTy)
    && (r.status.Ran? ==>
          StackOk(c, d, nodes, i + 1, r.st.stack, known, inTy, MovedAfter(c, nodes[i], moved))
          && MovedAfter(c, nodes[i], moved) !! r.st.env.Keys)
  }

  lemma PostSeenNone(c: Ctx, d: set<Finding>, r: Result, quiet: bool)
    requires r.seen == {} && EnvOk(c, d, r.st.env)
    ensures PostSeen(c, d, r, quiet)
  {
  }

  lemma AllAfter(c: Ctx, d: set<Finding>, nodes: seq<Node>, i: nat, stack: seq<Value>, known: Known, inTy: bool,
                 moved: set<string>)
    requires i < |nodes| && AllOk(c, d, stack) && !IsLit(nodes[i]) && !Selected(nodes, i + 1)
    ensures StackOk(c, d, nodes, i + 1, stack, known, inTy, moved)
  {
    assert stack[..|stack| - 0] == stack;
  }

  // ---- nodes that run no code

  lemma SimLit(c: Ctx, d: set<Finding>, nodes: seq<Node>, i: nat, st: State, fuel: nat,
               known: Known, inTy: bool, moved: set<string>)
    requires Seen(c, nodes) && i < |nodes| && ChildOk(c, d, nodes, i, known, inTy, moved)
    requires StateOk(c, d, st, known, inTy, moved) && StackOk(c, d, nodes, i, st.stack, known, inTy, moved)
    requires IsLit(nodes[i])
    ensures NodePost(c, d, nodes, i, Exec(nodes[i], st, fuel), known, inTy, moved)
  {
    PushLit(c, d, nodes, i, st.stack, known, inTy, moved);
  }

  lemma SimPlain(c: Ctx, d: set<Finding>, nodes: seq<Node>, i: nat, st: State, fuel: nat,
                 known: Known, inTy: bool, moved: set<string>)
    requires Seen(c, nodes) && i < |nodes|
    requires StateOk(c, d, st, known, inTy, moved) && StackOk(c, d, nodes, i, st.stack, known, inTy, moved)
    requires !IsLit(nodes[i]) && !TakesOne(c, nodes, i) && !nodes[i].Op?
    ensures NodePost(c, d, nodes, i, Exec(nodes[i], st, fuel), known, inTy, moved)
  {
    Settled(c, d, nodes, i, st.stack, known, inTy, moved);
    SeenAt(c, nodes, i);
    var r := Exec(nodes[i], st, fuel);
    PlainOk(c, d, nodes[i], st, fuel, moved, MovedAfter(c, nodes[i], moved), r);
    if r.status.Ran? {
      AllAfter(c, d, nodes, i, r.st.stack, known, inTy, MovedAfter(c, nodes[i], moved));
    }
  }

  /** Bindings, moves, names and literals pass values on. A program may bind rq
      and hv; before it does, they still probe. */
  lemma PlainOk(c: Ctx, d: set<Finding>, n: Node, st: State, fuel: nat, moved: set<string>, after: set<string>, r: Result)
    requires Core(c) && EnvOk(c, d, st.env) && AllOk(c, d, st.stack) && moved !! st.env.Keys
    requires !IsLit(n) && !n.Op? && (n.Name? ==> n.name != "gr" && n.name != "ty") && (n.Bind? ==> n.name in c.bound)
    requires r == Exec(n, st, fuel) && after == MovedAfter(c, n, moved)
    ensures r.seen == {} && EnvOk(c, d, r.st.env)
    ensures r.status.Ran? ==> AllOk(c, d, r.st.stack) && after !! r.st.env.Keys
  {
  }

  lemma SimBasic(c: Ctx, d: set<Finding>, nodes: seq<Node>, i: nat, st: State, fuel: nat,
                 known: Known, inTy: bool, moved: set<string>)
    requires Seen(c, nodes) && i < |nodes|
    requires StateOk(c, d, st, known, inTy, moved) && StackOk(c, d, nodes, i, st.stack, known, inTy, moved)
    requires nodes[i].Op? && !TakesOne(c, nodes, i)
    ensures NodePost(c, d, nodes, i, Exec(nodes[i], st, fuel), known, inTy, moved)
  {
    Settled(c, d, nodes, i, st.stack, known, inTy, moved);
    BasicOk(c, d, nodes[i].sym, st.stack);
    var r := ExecOp(nodes[i].sym, st, fuel);
    assert Exec(nodes[i], st, fuel) == r;
    if r.status.Ran? {
      assert AllOk(c, d, r.st.stack);
      AllAfter(c, d, nodes, i, r.st.stack, known, inTy, MovedAfter(c, nodes[i], moved));
    }
  }

  /** `?` before `@`: what it leaves may be run at once. */
  lemma SimSelect(c: Ctx, d: set<Finding>, nodes: seq<Node>, i: nat, st: State, fuel: nat,
                  known: Known, inTy: bool, moved: set<string>)
    requires Seen(c, nodes) && i < |nodes|
    requires StateOk(c, d, st, known, inTy, moved) && StackOk(c, d, nodes, i, st.stack, known, inTy, moved)
    requires OpAt(nodes, i, "?") && OpAt(nodes, i + 1, "@")
    ensures NodePost(c, d, nodes, i, Exec(nodes[i], st, fuel), known, inTy, moved)
  {
    var r := Exec(nodes[i], st, fuel);
    SelectIs(nodes[i], st, fuel, r);
    if r.status.Ran? {
      PairRuns(c, d, nodes, i, st.stack, known, inTy, moved, moved);
    }
  }

  /** `?` takes three values and leaves one of the two blocks on top. */
  lemma SelectIs(n: Node, st: State, fuel: nat, r: Result)
    requires n.Op? && n.sym == "?" && r == Exec(n, st, fuel)
    ensures r.seen == {} && r.st.env == st.env && r.st.caps == st.caps && r.st.depth == st.depth
    ensures r.status.Ran? ==> Picked(st.stack, r.st.stack)
  {
    if r.status.Ran? {
      var s := r.st.stack;
      assert s[..|s| - 1] == st.stack[..|st.stack| - 3] == st.stack[..|st.stack| - 2][..|st.stack| - 3];
    }
  }

  ghost predicate Picked(stack: seq<Value>, s: seq<Value>) {
    var n := |stack|;
    && n >= 3 && |s| == n - 2 && stack[n - 1].VBlk? && stack[n - 2].VBlk?
    && (s[n - 3] == stack[n - 1] || s[n - 3] == stack[n - 2])
    && s[..n - 3] == stack[..n - 3] == stack[..n - 2][..n - 3]
  }

  /** The two blocks under a `;`, or under a `?` before `@`, may be run. */
  lemma PairRuns(c: Ctx, d: set<Finding>, nodes: seq<Node>, i: nat, stack: seq<Value>,
                 known: Known, inTy: bool, moved: set<string>, inner: set<string>)
    requires Core(c) && (known.Unknown? ==> inTy)
    requires i < |nodes| && TakesTwo(nodes, i)
    requires Seen(c, nodes) && StackOk(c, d, nodes, i, stack, known, inTy, moved)
    requires inner == if OpAt(nodes, i, ";") then {} else moved
    requires |stack| >= 2 && stack[|stack| - 1].VBlk? && stack[|stack| - 2].VBlk?
    ensures RunOk(c, d, stack[|stack| - 1].nodes, known, inTy, inner)
    ensures RunOk(c, d, stack[|stack| - 2].nodes, known, inTy, inner)
    ensures AllOk(c, d, stack[..|stack| - 2])
  {
    var n, k := |stack|, Lits(nodes, i);
    var base := stack[..n - k];
    if k >= 1 {
      SeenChild(c, nodes, i - 1);
    } else {
      assert base[n - 1] == stack[n - 1];
    }
    if k >= 2 {
      SeenChild(c, nodes, i - 2);
    } else {
      assert base[n - 2] == stack[n - 2];
    }
    assert stack[..n - 2] == base[..n - 2];
  }

  // ---- nodes that run code

  lemma PostWeaken(c: Ctx, d: set<Finding>, r: Result, quiet: bool)
    requires Post(c, d, r, true)
    ensures Post(c, d, r, quiet)
  {
  }

  lemma {:induction false} SimSeq(c: Ctx, d: set<Finding>, nodes: seq<Node>, i: nat, st: State, fuel: nat,
                                  known: Known, inTy: bool, moved: set<string>)
    requires i <= |nodes| && Seen(c, nodes) && Safe(c, d, nodes, i, known, inTy, moved)
    requires StateOk(c, d, st, known, inTy, moved) && StackOk(c, d, nodes, i, st.stack, known, inTy, moved)
    ensures Post(c, d, ExecSeq(nodes, i, st, fuel), inTy)
    decreases fuel, Room(st), |nodes| - i + 5
  {
    if i == |nodes| {
      Settled(c, d, nodes, i, st.stack, known, inTy, moved);
    } else {
      SimNode(c, d, nodes, i, st, fuel, known, inTy, moved);
      var r := ExecNode(nodes[i], st, fuel);
      if r.status.Ran? {
        SimSeq(c, d, nodes, i + 1, r.st, fuel, known, inTy, MovedAfter(c, nodes[i], moved));
        PostThen(c, d, r, ExecSeq(nodes, i + 1, r.st, fuel), inTy);
      }
    }
  }

  lemma {:induction false} SimNode(c: Ctx, d: set<Finding>, nodes: seq<Node>, i: nat, st: State, fuel: nat,
                                   known: Known, inTy: bool, moved: set<string>)
    requires i < |nodes| && Seen(c, nodes)
    requires LeafOk(c, d, nodes, i, known, inTy, moved) && ChildOk(c, d, nodes, i, known, inTy, moved)
    requires StateOk(c, d, st, known, inTy, moved) && StackOk(c, d, nodes, i, st.stack, known, inTy, moved)
    ensures NodePost(c, d, nodes, i, ExecNode(nodes[i], st, fuel), known, inTy, moved)
    decreases fuel, Room(st), 5
  {
    SimExec(c, d, nodes, i, st, fuel, known, inTy, moved);
    OwnFault(c, d, nodes, i, st, fuel, known, inTy, moved);
    OwnEvents(c, d, nodes[i], st, fuel, inTy);
  }

  /** A node about which a fault is predicted raises just that fault. */
  lemma OwnFault(c: Ctx, d: set<Finding>, nodes: seq<Node>, i: nat, st: State, fuel: nat,
                 known: Known, inTy: bool, moved: set<string>)
    requires i < |nodes| && LeafOk(c, d, nodes, i, known, inTy, moved)
    requires StateOk(c, d, st, known, inTy, moved) && StackOk(c, d, nodes, i, st.stack, known, inTy, moved)
    ensures forall f | f in d && f.pos == nodes[i].pos && Predicts(f) ::
      Exec(nodes[i], st, fuel).status == Raised(CodeOf(f.rule)) && !(Fatal(c, f) && inTy && c.usesTy)
    ensures forall f | f in d && f.pos == nodes[i].pos && f.Runs? :: f.caps == st.caps
  {
    forall f | f in d && f.pos == nodes[i].pos && Predicts(f)
      ensures Exec(nodes[i], st, fuel).status == Raised(CodeOf(f.rule)) && !(Fatal(c, f) && inTy && c.usesTy)
    {
      assert Means(c, f, nodes, i, known, inTy, moved);
      if f.rule == Denied || f.rule == NeverGranted {
        assert Exec(nodes[i], st, fuel) == ExecWord("rq", st, fuel);
      }
    }
    forall f | f in d && f.pos == nodes[i].pos && f.Runs?
      ensures f.caps == st.caps
    {
      assert Means(c, f, nodes, i, known, inTy, moved);
    }
  }

  lemma OwnEvents(c: Ctx, d: set<Finding>, n: Node, st: State, fuel: nat, inTy: bool)
    requires st.caps <= c.grantable
    requires PostSeen(c, d, Exec(n, st, fuel), inTy)
    requires forall f | f in d && f.pos == n.pos && Predicts(f) ::
      Exec(n, st, fuel).status == Raised(CodeOf(f.rule)) && !(Fatal(c, f) && inTy && c.usesTy)
    requires forall f | f in d && f.pos == n.pos && f.Runs? :: f.caps == st.caps
    ensures PostSeen(c, d, ExecNode(n, st, fuel), inTy)
  {
    var r, q := Exec(n, st, fuel), ExecNode(n, st, fuel);
    forall e | e in q.seen
      ensures EventOk(c, d, e)
    {
    }
    forall f | f in d && Fatal(c, f) && Entered(q.seen, f.pos)
      ensures q.status == Raised(CodeOf(f.rule)) && !(inTy && c.usesTy)
    {
      var caps :| Enter(f.pos, caps) in q.seen;
      if Enter(f.pos, caps) in r.seen {
        assert Entered(r.seen, f.pos);
      } else {
        assert f.pos == n.pos;
      }
    }
  }

  lemma {:induction false} SimExec(c: Ctx, d: set<Finding>, nodes: seq<Node>, i: nat, st: State, fuel: nat,
                                   known: Known, inTy: bool, moved: set<string>)
    requires i < |nodes| && Seen(c, nodes) && ChildOk(c, d, nodes, i, known, inTy, moved)
    requires StateOk(c, d, st, known, inTy, moved) && StackOk(c, d, nodes, i, st.stack, known, inTy, moved)
    ensures NodePost(c, d, nodes, i, Exec(nodes[i], st, fuel), known, inTy, moved)
    decreases fuel, Room(st), 4
  {
    var n := nodes[i];
    if IsLit(n) {
      SimLit(c, d, nodes, i, st, fuel, known, inTy, moved);
    } else if !TakesOne(c, nodes, i) {
      if n.Op? {
        SimBasic(c, d, nodes, i, st, fuel, known, inTy, moved);
      } else {
        SimPlain(c, d, nodes, i, st, fuel, known, inTy, moved);
      }
    } else if n.Name? {
      SimWord(c, d, nodes, i, st, fuel, known, inTy, moved);
    } else if n.sym == "?" {
      SimSelect(c, d, nodes, i, st, fuel, known, inTy, moved);
    } else {
      SimCall(c, d, nodes, i, st, fuel, known, inTy, moved);
    }
  }

  /** What a call leaves may be gone on from: every value is in order and the
      checker forgets what was moved. */
  lemma CallPost(c: Ctx, d: set<Finding>, nodes: seq<Node>, i: nat, r: Result, known: Known, inTy: bool,
                 moved: set<string>)
    requires i < |nodes| && Post(c, d, r, inTy) && MovedAfter(c, nodes[i], moved) == {}
    requires !IsLit(nodes[i]) && !Selected(nodes, i + 1)
    ensures NodePost(c, d, nodes, i, r, known, inTy, moved)
  {
    if r.status.Ran? {
      AllAfter(c, d, nodes, i, r.st.stack, known, inTy, {});
    }
  }

  lemma {:induction false} SimCall(c: Ctx, d: set<Finding>, nodes: seq<Node>, i: nat, st: State, fuel: nat,
                                   known: Known, inTy: bool, moved: set<string>)
    requires i < |nodes| && Seen(c, nodes) && nodes[i].Op? && nodes[i].sym in {"@", ";", "??"}
    requires StateOk(c, d, st, known, inTy, moved) && StackOk(c, d, nodes, i, st.stack, known, inTy, moved)
    ensures NodePost(c, d, nodes, i, Exec(nodes[i], st, fuel), known, inTy, moved)
    decreases fuel, Room(st), 3
  {
    var sym := nodes[i].sym;
    assert Exec(nodes[i], st, fuel) == ExecOp(sym, st, fuel);
    if sym == "@" && HasBlock(st, 1) {
      TopRuns(c, d, nodes, i, st.stack, known, inTy, moved);
      SimInvoke(c, d, Top(st, 1).nodes, Pop(st, 1), fuel, known, inTy, moved);
    } else if sym == ";" && HasBlock(st, 1) && HasBlock(st, 2) {
      PairRuns(c, d, nodes, i, st.stack, known, inTy, moved, {});
      SimWhile(c, d, Top(st, 2).nodes, Top(st, 1).nodes, Pop(st, 2), fuel, known, inTy);
    } else if sym == "??" && HasBlock(st, 1) && |st.stack| >= 2 {
      SettledBelow(c, d, nodes, i, st.stack, known, inTy, moved);
      assert st.stack[..|st.stack| - 1][|st.stack| - 2] == Top(st, 2);
      assert st.stack[..|st.stack| - 2] == st.stack[..|st.stack| - 1][..|st.stack| - 2];
      ArmsRun(c, d, nodes, i, st.stack, known, inTy, moved);
      SimMatch(c, d, Top(st, 1).nodes, Top(st, 2), Pop(st, 2), fuel, known, inTy, moved);
    } else {
      PostSeenNone(c, d, ExecOp(sym, st, fuel), inTy);
    }
    CallPost(c, d, nodes, i, ExecOp(sym, st, fuel), known, inTy, moved);
  }

  lemma TopRuns(c: Ctx, d: set<Finding>, nodes: seq<Node>, i: nat, stack: seq<Value>, known: Known, inTy: bool,
                moved: set<string>)
    requires i < |nodes| && OpAt(nodes, i, "@") && Core(c) && (known.Unknown? ==> inTy)
    requires Seen(c, nodes) && StackOk(c, d, nodes, i, stack, known, inTy, moved)
    requires |stack| >= 1 && stack[|stack| - 1].VBlk?
    ensures RunOk(c, d, stack[|stack| - 1].nodes, known, inTy, moved)
    ensures AllOk(c, d, stack[..|stack| - 1])
  {
    if !Selected(nodes, i) {
      SettledBelow(c, d, nodes, i, stack, known, inTy, moved);
      if Lits(nodes, i) >= 1 {
        SeenChild(c, nodes, i - 1);
      } else {
        assert stack[..|stack| - 0][|stack| - 1] == stack[|stack| - 1];
      }
    }
  }

  lemma ArmsRun(c: Ctx, d: set<Finding>, nodes: seq<Node>, i: nat, stack: seq<Value>, known: Known, inTy: bool,
                moved: set<string>)
    requires i < |nodes| && OpAt(nodes, i, "??") && Core(c) && (known.Unknown? ==> inTy)
    requires Seen(c, nodes) && StackOk(c, d, nodes, i, stack, known, inTy, moved)
    requires |stack| >= 1 && stack[|stack| - 1].VBlk?
    ensures var b := stack[|stack| - 1].nodes;
      Seen(c, b) && (SafeArms(c, d, b, 0, known, inTy, moved) || SafeArms(c, d, b, 0, Unknown, true, {}))
  {
    var b := stack[|stack| - 1].nodes;
    if Lits(nodes, i) >= 1 {
      SeenChild(c, nodes, i - 1);
    } else {
      assert stack[..|stack| - 0][|stack| - 1] == stack[|stack| - 1];
      LooseArms(c, d, b, 0);
    }
  }

  lemma {:induction false} ChooseSafe(c: Ctx, d: set<Finding>, arms: seq<Node>, j: nat, subject: Value,
                                      known: Known, inTy: bool, moved: set<string>)
    requires |arms| % 2 == 0 && j % 2 == 0 && Seen(c, arms) && SafeArms(c, d, arms, j, known, inTy, moved)
    requires ValOk(c, d, subject)
    ensures match Choose(arms, j, subject)
      case Refused(_) => true
      case Chosen(body, value) =>
        Seen(c, body) && Safe(c, d, body, 0, known, inTy, moved) && ValOk(c, d, value)
    decreases |arms| - j
  {
    if j < |arms| && arms[j].Blk? && arms[j + 1].Blk? {
      SeenChild(c, arms, j + 1);
      ChooseSafe(c, d, arms, j + 2, subject, known, inTy, moved);
    }
  }

  lemma {:induction false} SimMatch(c: Ctx, d: set<Finding>, arms: seq<Node>, subject: Value, st: State, fuel: nat,
                                    known: Known, inTy: bool, moved: set<string>)
    requires Seen(c, arms) && ValOk(c, d, subject) && AllOk(c, d, st.stack)
    requires SafeArms(c, d, arms, 0, known, inTy, moved) || SafeArms(c, d, arms, 0, Unknown, true, {})
    requires StateOk(c, d, st, known, inTy, moved)
    ensures Post(c, d, ExecMatch(arms, subject, st, fuel), inTy)
    decreases fuel, Room(st), 2
  {
    if |arms| % 2 == 0 {
      var loose := !SafeArms(c, d, arms, 0, known, inTy, moved);
      ChooseSafe(c, d, arms, 0, subject, if loose then Unknown else known, loose || inTy, if loose then {} else moved);
      match Choose(arms, 0, subject)
      case Refused(_) =>
      case Chosen(body, value) =>
        AllOkSnoc(c, d, st.stack, value);
        SimInvoke(c, d, body, Push(st, value), fuel, known, inTy, moved);
    }
  }

  lemma {:induction false} SimWhile(c: Ctx, d: set<Finding>, cond: seq<Node>, body: seq<Node>, st: State, fuel: nat,
                                    known: Known, inTy: bool)
    requires RunOk(c, d, cond, known, inTy, {}) && RunOk(c, d, body, known, inTy, {})
    requires AllOk(c, d, st.stack) && StateOk(c, d, st, known, inTy, {})
    ensures Post(c, d, While(cond, body, st, fuel), inTy)
    decreases fuel, Room(st), 2
  {
    SimInvoke(c, d, cond, st, fuel, known, inTy, {});
    var r := Invoke(cond, st, fuel);
    if r.status.Ran? && r.st.stack != [] && Truthy(Top(r.st, 1)) {
      var st1 := Pop(r.st, 1);
      SimInvoke(c, d, body, st1, fuel, known, inTy, {});
      var s := Invoke(body, st1, fuel);
      if s.status.Ran? && fuel > 0 {
        SimWhile(c, d, cond, body, s.st, fuel - 1, known, inTy);
        PostThen(c, d, s, While(cond, body, s.st, fuel - 1), inTy);
        PostThen(c, d, r, Then(s.seen, While(cond, body, s.st, fuel - 1)), inTy);
      } else {
        PostThen(c, d, r, if s.status.Ran? then s.(status := Spent) else s, inTy);
      }
    }
  }

  lemma {:induction false} SimInvoke(c: Ctx, d: set<Finding>, b: seq<Node>, st: State, fuel: nat,
                                     known: Known, inTy: bool, moved: set<string>)
    requires RunOk(c, d, b, known, inTy, moved) && AllOk(c, d, st.stack)
    requires StateOk(c, d, st, known, inTy, moved)
    ensures Post(c, d, Invoke(b, st, fuel), inTy)
    decreases fuel, Room(st), 1
  {
    if st.depth < MAX_INVOKE_DEPTH {
      var st1 := st.(depth := st.depth + 1);
      assert st.stack[..|st.stack| - 0] == st.stack;
      if Safe(c, d, b, 0, known, inTy, moved) {
        SimSeq(c, d, b, 0, st1, fuel, known, inTy, moved);
      } else {
        SimSeq(c, d, b, 0, st1, fuel, Unknown, true, {});
        PostWeaken(c, d, ExecSeq(b, 0, st1, fuel), inTy);
      }
    }
  }

  lemma {:induction false} SimWord(c: Ctx, d: set<Finding>, nodes: seq<Node>, i: nat, st: State, fuel: nat,
                                   known: Known, inTy: bool, moved: set<string>)
    requires i < |nodes| && Seen(c, nodes) && nodes[i].Name? && nodes[i].name in BUILTINS - c.bound
    requires StateOk(c, d, st, known, inTy, moved) && StackOk(c, d, nodes, i, st.stack, known, inTy, moved)
    ensures NodePost(c, d, nodes, i, Exec(nodes[i], st, fuel), known, inTy, moved)
    decreases fuel, Room(st), 3
  {
    var x := nodes[i].name;
    assert Exec(nodes[i], st, fuel) == ExecWord(x, st, fuel);
    if x == "gr" && HasBlock(st, 1) && |st.stack| >= 2 && Top(st, 2).VCap? {
      var cap, b, st1 := Top(st, 2).cap, Top(st, 1).nodes, Pop(st, 2);
      GrantRuns(c, d, nodes, i, st.stack, known, inTy, moved);
      SimGrant(c, d, cap, b, st1, fuel, known, inTy, moved, Granted(nodes, i, st.stack, known));
      assert ExecWord(x, st, fuel) == ExecGrant(cap, b, st1, fuel);
      CallPost(c, d, nodes, i, ExecGrant(cap, b, st1, fuel), known, inTy, moved);
    } else if x == "ty" && HasBlock(st, 1) {
      var b, st1 := Top(st, 1).nodes, Pop(st, 1);
      SeenAt(c, nodes, i);
      TryRuns(c, d, nodes, i, st.stack, known, inTy, moved);
      SimTry(c, d, b, st1, fuel, known, inTy, moved);
      assert ExecWord(x, st, fuel) == ExecTry(b, st1, fuel);
      CallPost(c, d, nodes, i, ExecTry(b, st1, fuel), known, inTy, moved);
    } else {
      SimProbe(c, d, nodes, i, st, fuel, known, inTy, moved);
    }
  }

  /** rq and hv, and the words above when they find nothing to run. */
  lemma SimProbe(c: Ctx, d: set<Finding>, nodes: seq<Node>, i: nat, st: State, fuel: nat,
                 known: Known, inTy: bool, moved: set<string>)
    requires i < |nodes| && Seen(c, nodes) && nodes[i].Name? && nodes[i].name in BUILTINS
    requires StateOk(c, d, st, known, inTy, moved) && StackOk(c, d, nodes, i, st.stack, known, inTy, moved)
    requires nodes[i].name == "gr" ==> !HasBlock(st, 1) || |st.stack| < 2 || !Top(st, 2).VCap?
    requires nodes[i].name == "ty" ==> !HasBlock(st, 1)
    ensures NodePost(c, d, nodes, i, ExecWord(nodes[i].name, st, fuel), known, inTy, moved)
  {
    var r := ExecWord(nodes[i].name, st, fuel);
    PostSeenNone(c, d, r, inTy);
    if r.status.Ran? {
      SettledBelow(c, d, nodes, i, st.stack, known, inTy, moved);
      AllAfter(c, d, nodes, i, r.st.stack, known, inTy, moved);
    }
  }

  lemma TryRuns(c: Ctx, d: set<Finding>, nodes: seq<Node>, i: nat, stack: seq<Value>, known: Known, inTy: bool,
                moved: set<string>)
    requires i < |nodes| && WordAt(c, nodes, i, "ty") && Core(c) && (known.Unknown? ==> inTy)
    requires Seen(c, nodes) && StackOk(c, d, nodes, i, stack, known, inTy, moved)
    requires |stack| >= 1 && stack[|stack| - 1].VBlk?
    ensures RunOk(c, d, stack[|stack| - 1].nodes, known, true, moved)
    ensures AllOk(c, d, stack[..|stack| - 1])
  {
    SettledBelow(c, d, nodes, i, stack, known, inTy, moved);
    if Lits(nodes, i) >= 1 {
      SeenChild(c, nodes, i - 1);
    } else {
      assert stack[..|stack| - 0][|stack| - 1] == stack[|stack| - 1];
    }
  }

  /** The authority of the block under a `gr`: exact when both literals are here. */
  ghost function Granted(nodes: seq<Node>, i: nat, stack: seq<Value>, known: Known): Known
    requires |stack| >= 2 && stack[|stack| - 2].VCap?
  {
    if CapAt(nodes, i - 2) && BlkAt(nodes, i - 1) && known.Exact? then Exact(known.caps + {stack[|stack| - 2].cap})
    else Unknown
  }

  lemma GrantRuns(c: Ctx, d: set<Finding>, nodes: seq<Node>, i: nat, stack: seq<Value>, known: Known, inTy: bool,
                  moved: set<string>)
    requires i < |nodes| && WordAt(c, nodes, i, "gr") && Core(c) && (known.Unknown? ==> inTy)
    requires Seen(c, nodes) && StackOk(c, d, nodes, i, stack, known, inTy, moved)
    requires |stack| >= 2 && stack[|stack| - 1].VBlk? && stack[|stack| - 2].VCap?
    ensures var k := Granted(nodes, i, stack, known);
      RunOk(c, d, stack[|stack| - 1].nodes, k, k.Unknown? || inTy, moved)
    ensures stack[|stack| - 2].cap in c.grantable
    ensures AllOk(c, d, stack[..|stack| - 2])
  {
    var n := |stack|;
    SettledBelow(c, d, nodes, i, stack, known, inTy, moved);
    var below := stack[..n - 1];
    assert below[n - 2] == stack[n - 2];
    assert stack[..n - 2] == below[..n - 2];
    if Lits(nodes, i) >= 1 {
      SeenChild(c, nodes, i - 1);
    } else {
      assert stack[..n - 0][n - 1] == stack[n - 1];
    }
  }

  lemma {:induction false} SimGrant(c: Ctx, d: set<Finding>, cap: string, b: seq<Node>, st: State, fuel: nat,
                                    known: Known, inTy: bool, moved: set<string>, inner: Known)
    requires RunOk(c, d, b, inner, inner.Unknown? || inTy, moved) && AllOk(c, d, st.stack)
    requires StateOk(c, d, st, known, inTy, moved) && cap in c.grantable
    requires inner.Exact? ==> known.Exact? && inner.caps == known.caps + {cap}
    ensures Post(c, d, ExecGrant(cap, b, st, fuel), inTy)
    decreases fuel, Room(st), 2
  {
    var st1 := st.(caps := st.caps + {cap});
    SimInvoke(c, d, b, st1, fuel, inner, inner.Unknown? || inTy, moved);
    if inner.Unknown? {
      PostWeaken(c, d, Invoke(b, st1, fuel), inTy);
    }
  }

  lemma {:induction false} SimTry(c: Ctx, d: set<Finding>, b: seq<Node>, st: State, fuel: nat,
                                  known: Known, inTy: bool, moved: set<string>)
    requires RunOk(c, d, b, known, true, moved) && AllOk(c, d, st.stack)
    requires StateOk(c, d, st, known, inTy, moved) && c.usesTy
    ensures Post(c, d, ExecTry(b, st, fuel), inTy)
    decreases fuel, Room(st), 2
  {
    SimInvoke(c, d, b, st.(stack := []), fuel, known, true, moved);
    var r := Invoke(b, st.(stack := []), fuel);
    if r.status.Ran? && |r.st.stack| == 1 {
      assert ValOk(c, d, VRes(true, r.st.stack[0]));
    }
  }
}
