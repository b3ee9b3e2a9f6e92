// What control words do, said of runs: a loop that counts ends where it should, and
// a match takes the first arm that fits.

module ControlLaws {
  import opened Syntax
  import opened Machine
  import opened OperatorLaws

  // ---- loops

  /** `[ i n < ]`, `[ i 1 + :i ]` */
  predicate Below(cond: seq<Node>, i: string, n: int) {
    |cond| == 3 && cond[0].Name? && cond[0].name == i && IsTok(cond[1], N(n)) && IsTok(cond[2], O("<"))
  }

  predicate Steps(body: seq<Node>, i: string) {
    |body| == 4 && body[0].Name? && body[0].name == i && IsTok(body[1], N(1)) && IsTok(body[2], O("+"))
    && body[3].Bind? && body[3].name == i
  }

  ghost predicate Holds(st: State, i: string, k: int) {
    st.depth < MAX_INVOKE_DEPTH && i in st.env && st.env[i] == VInt(k)
  }

  lemma Named(p: seq<Node>, st: State, fuel: nat, i: string, k: int)
    requires |p| > 0 && p[0].Name? && p[0].name == i && i in st.env && st.env[i] == VInt(k)
    ensures Reached(p, st, fuel, 1, st.stack + [VInt(k)])
  {
    Begin(p, st, fuel);
    assert Exec(p[0], st, fuel) == Ok(Push(st, VInt(k)));
    Step(p, 0, st, fuel, Push(st, VInt(k)));
  }

  lemma CondLeaves(cond: seq<Node>, st: State, fuel: nat, i: string, k: int, n: int)
    requires Below(cond, i, n) && i in st.env && st.env[i] == VInt(k)
    ensures Leaves(cond, st, fuel, [VInt(if k < n then 1 else 0)])
  {
    var b := VInt(if k < n then 1 else 0);
    Named(cond, st, fuel, i, k);
    Literal(cond, st, fuel, 1, st.stack + [VInt(k)], N(n));
    assert st.stack + [VInt(k)] + [VInt(n)] == st.stack + [VInt(k), VInt(n)];
    CompareBasic("<", st.stack, VInt(k), VInt(n));
    assert Compare("<", st.stack, VInt(k), VInt(n)) == Next(st.stack + [b]);
    Operate(cond, st, fuel, 2, st.stack + [VInt(k), VInt(n)], "<", st.stack + [b]);
    Finish(cond, st, fuel, [b]);
  }

  lemma BodySteps(body: seq<Node>, st: State, fuel: nat, i: string, k: int)
    requires Steps(body, i) && i in st.env && st.env[i] == VInt(k) && FitsInt(k + 1)
    ensures var r := ExecSeq(body, 0, st, fuel); r.status == Ran && r.st == st.(env := st.env[i := VInt(k + 1)])
  {
    Named(body, st, fuel, i, k);
    Literal(body, st, fuel, 1, st.stack + [VInt(k)], N(1));
    assert st.stack + [VInt(k)] + [VInt(1)] == st.stack + [VInt(k), VInt(1)];
    Binary(body, st, fuel, 2, k, 1, "+", k + 1);
    var s := st.(stack := st.stack + [VInt(k + 1)]);
    var s' := st.(env := st.env[i := VInt(k + 1)]);
    assert Pop(s, 1) == st;
    Step(body, 3, s, fuel, s');
  }

  /** The loop runs until its condition is false, and not once more. */
  lemma {:induction false} Counts(cond: seq<Node>, body: seq<Node>, st: State, fuel: nat, i: string, k: int, n: int)
    requires Below(cond, i, n) && Steps(body, i) && Holds(st, i, k) && k <= n && FitsInt(n) && FitsInt(k) && fuel >= n - k
    ensures var r := While(cond, body, st, fuel); r.status == Ran && r.st == st.(env := st.env[i := VInt(n)])
    decreases n - k
  {
    var inner := st.(depth := st.depth + 1);
    CondLeaves(cond, inner, fuel, i, k, n);
    var t := Push(st, VInt(if k < n then 1 else 0));
    assert Invoke(cond, st, fuel).status == Ran && Invoke(cond, st, fuel).st == t;
    assert Pop(t, 1) == st;
    if k < n {
      BodySteps(body, inner, fuel, i, k);
      var s := st.(env := st.env[i := VInt(k + 1)]);
      assert Invoke(body, st, fuel).status == Ran && Invoke(body, st, fuel).st == s;
      Counts(cond, body, s, fuel - 1, i, k + 1, n);
      assert s.env[i := VInt(n)] == st.env[i := VInt(n)];
    } else {
      assert st.env[i := VInt(n)] == st.env;
    }
  }

  /** So the program of these two blocks and `;`. */
  lemma CountsUp(p: seq<Node>, st: State, fuel: nat, i: string, k: int, n: int)
    requires |p| == 3 && p[0].Blk? && p[1].Blk? && IsTok(p[2], O(";")) && Below(p[0].nodes, i, n) && Steps(p[1].nodes, i)
    requires Holds(st, i, k) && k <= n && FitsInt(n) && FitsInt(k) && fuel >= n - k
    ensures var r := ExecSeq(p, 0, st, fuel); r.status == Ran && r.st == st.(env := st.env[i := VInt(n)])
  {
    Counts(p[0].nodes, p[1].nodes, st, fuel, i, k, n);
    Loops(p, st, fuel, st.(env := st.env[i := VInt(n)]));
  }

  lemma Loops(p: seq<Node>, st: State, fuel: nat, end: State)
    requires |p| == 3 && p[0].Blk? && p[1].Blk? && IsTok(p[2], O(";"))
    requires var r := While(p[0].nodes, p[1].nodes, st, fuel); r.status == Ran && r.st == end
    ensures var r := ExecSeq(p, 0, st, fuel); r.status == Ran && r.st == end
  {
    var s := Push(st, VBlk(p[0].nodes));
    var t := Push(s, VBlk(p[1].nodes));
    Step(p, 0, st, fuel, s);
    Step(p, 1, s, fuel, t);
    LoopStep(p[2], st, s, t, fuel);
    assert ExecSeq(p, 2, t, fuel).st == end;
  }

  lemma LoopStep(n: Node, st: State, s: State, t: State, fuel: nat)
    requires IsTok(n, O(";")) && s.stack != [] && s.stack[|s.stack| - 1].VBlk? && Pop(s, 1) == st
    requires t.stack != [] && t.stack[|t.stack| - 1].VBlk? && Pop(t, 1) == s
    ensures Exec(n, t, fuel) == While(Top(s, 1).nodes, Top(t, 1).nodes, st, fuel)
  {
    assert Pop(t, 2) == Pop(s, 1) && Top(t, 2) == Top(s, 1);
  }

  // ---- matches

  /** Does the pattern fit the value? */
  predicate Fits(n: Node, v: Value) {
    match n
    case Int(_, _) => Equal(v, LiteralValue(n))
    case Flt(_, _) => Equal(v, LiteralValue(n))
    case Str(_, _) => Equal(v, LiteralValue(n))
    case Name(x, _) => x == "any" || (v.VRes? && x == (if v.ok then "ok" else "err")) || TypeName(v) == x
    case _ => false
  }

  predicate Arm(arms: seq<Node>, k: nat) {
    k + 1 < |arms| && arms[k].Blk? && arms[k + 1].Blk? && |arms[k].nodes| == 1
    && var n := arms[k].nodes[0];
       n.Int? || n.Flt? || n.Str? || (n.Name? && (n.name in {"any", "ok", "err"} || n.name in PATTERN_TYPES))
  }

  /** The first arm that fits, and none before it, whatever comes behind; only the
      arm of `ok` or `err` receives what the result holds. */
  lemma {:induction false} FirstFit(arms: seq<Node>, j: nat, k: nat, v: Value)
    requires |arms| % 2 == 0 && j % 2 == 0 && k % 2 == 0 && j <= k && Arm(arms, k) && Fits(arms[k].nodes[0], v)
    requires forall m :: j <= m < k && m % 2 == 0 ==> Arm(arms, m) && !Fits(arms[m].nodes[0], v)
    ensures var n := arms[k].nodes[0];
      Choose(arms, j, v)
      == Chosen(arms[k + 1].nodes, if n.Name? && n.name in {"ok", "err"} && v.VRes? then v.val else v)
    decreases k - j
  {
    if j < k {
      assert Arm(arms, j) && !Fits(arms[j].nodes[0], v);
      FirstFit(arms, j + 2, k, v);
    }
  }

  /** Without one it refuses. */
  lemma {:induction false} NoneFits(arms: seq<Node>, j: nat, v: Value)
    requires |arms| % 2 == 0 && j % 2 == 0 && j <= |arms|
    requires forall m :: j <= m < |arms| && m % 2 == 0 ==> Arm(arms, m) && !Fits(arms[m].nodes[0], v)
    ensures Choose(arms, j, v) == Refused("NO_MATCH")
    decreases |arms| - j
  {
    if j < |arms| {
      assert Arm(arms, j) && !Fits(arms[j].nodes[0], v);
      NoneFits(arms, j + 2, v);
    }
  }
}
