// The checker against the machine: a simulation over every run. Values at large
// hold only capabilities that can be granted and blocks that may be run from
// anywhere; literals still on top of the stack are known exactly.

module CheckerSound {
  import opened Syntax
  import opened Machine
  import opened CheckerModel
  import opened CheckerStatic

  /** The safety core: no program binds gr or ty; and a `;` condition is judged
      without the names moved before it. */
  ghost predicate Core(c: Ctx) {
    "gr" !in c.bound && "ty" !in c.bound && !c.inherit
  }

  /** The pre-passes saw this sequence. */
  ghost predicate Seen(c: Ctx, nodes: seq<Node>) {
    && Binds(nodes) <= c.bound
    && FreeCaps(c.bound, nodes, 0) <= c.grantable
    && (UsesTy(c.bound, nodes) ==> c.usesTy)
  }

  lemma {:induction false} SeenAt(c: Ctx, nodes: seq<Node>, i: nat)
    requires i < |nodes| && Binds(nodes) <= c.bound && (UsesTy(c.bound, nodes) ==> c.usesTy)
    ensures nodes[i].Bind? ==> nodes[i].name in c.bound
    ensures IsWord(c, nodes[i], "ty") ==> c.usesTy
    ensures nodes[i].Blk? ==> Binds(nodes[i].nodes) <= c.bound && (UsesTy(c.bound, nodes[i].nodes) ==> c.usesTy)
  {
    if i > 0 {
      SeenAt(c, nodes[1..], i - 1);
    }
  }

  lemma {:induction false} FreeAt(c: Ctx, nodes: seq<Node>, j: nat, i: nat)
    requires j <= i < |nodes| && FreeCaps(c.bound, nodes, j) <= c.grantable
    ensures nodes[i].Cap? && !WordAt(c, nodes, i + 1, "rq") && !WordAt(c, nodes, i + 1, "hv")
        ==> nodes[i].cap in c.grantable
    ensures nodes[i].Blk? ==> FreeCaps(c.bound, nodes[i].nodes, 0) <= c.grantable
    decreases i - j
  {
    if j < i {
      FreeAt(c, nodes, j + 1, i);
    }
  }

  lemma SeenChild(c: Ctx, nodes: seq<Node>, i: nat)
    requires Seen(c, nodes) && i < |nodes| && nodes[i].Blk?
    ensures Seen(c, nodes[i].nodes)
  {
    SeenAt(c, nodes, i);
    FreeAt(c, nodes, 0, i);
  }

  // ---- values, environments, authority

  ghost predicate ValOk(c: Ctx, d: set<Finding>, v: Value) {
    match v
    case VCap(cap) => cap in c.grantable
    case VBlk(b) => Loose(c, d, b) && Seen(c, b)
    case VRes(_, w) => ValOk(c, d, w)
    case _ => true
  }

  ghost predicate AllOk(c: Ctx, d: set<Finding>, vs: seq<Value>) {
    forall i | 0 <= i < |vs| :: ValOk(c, d, vs[i])
  }

  ghost predicate EnvOk(c: Ctx, d: set<Finding>, env: Env) {
    env.Keys <= c.bound && forall x | x in env :: ValOk(c, d, env[x])
  }

  /** Nothing outside `grantable` is ever held, and an exact set is exact. */
  ghost predicate CapsOk(c: Ctx, caps: set<string>, known: Known) {
    caps <= c.grantable && (known.Exact? ==> caps == known.caps)
  }

  // ---- what a run may be seen to do

  /** A fault that nothing catches: denied authority; and, when the program has
      no `ty`, an unresolved name. */
  ghost predicate Fatal(c: Ctx, f: Finding) {
    f.Diag? && (f.rule == Denied || f.rule == NeverGranted
                || (!c.usesTy && (f.rule == MovedOut || f.rule == Unbound)))
  }

  ghost predicate Predicts(f: Finding) {
    f.Diag? && f.rule != BadArms && f.rule != NotExhaustive
  }

  ghost predicate EventOk(c: Ctx, d: set<Finding>, e: Event) {
    match e
    case Enter(p, caps) => caps <= c.grantable && forall f | f in d && f.pos == p && f.Runs? :: f.caps == caps
    case Leave(p) => forall f | f in d && f.pos == p :: !Predicts(f)
    case Raise(p, code) => forall f | f in d && f.pos == p && Predicts(f) :: CodeOf(f.rule) == code
    case Refuse(_, _) => true
  }

  ghost predicate Entered(seen: set<Event>, p: nat) {
    exists caps :: Enter(p, caps) in seen
  }

  /** After any run: the values are in order, every event is as reported, and a
      fatal node that was entered ended the run with its fault. With `quiet`,
      for code whose faults may be caught, no such node was entered at all. */
  ghost predicate Post(c: Ctx, d: set<Finding>, r: Result, quiet: bool) {
    && (r.status.Ran? ==> AllOk(c, d, r.st.stack))
    && PostSeen(c, d, r, quiet)
  }

  ghost predicate PostSeen(c: Ctx, d: set<Finding>, r: Result, quiet: bool) {
    && EnvOk(c, d, r.st.env)
    && (forall e | e in r.seen :: EventOk(c, d, e))
    && (forall f | f in d && Fatal(c, f) && Entered(r.seen, f.pos) ::
          r.status == Raised(CodeOf(f.rule)) && !(quiet && c.usesTy))
  }

  lemma PostThen(c: Ctx, d: set<Finding>, r: Result, s: Result, quiet: bool)
    requires PostSeen(c, d, r, quiet) && r.status.Ran? && PostSeen(c, d, s, quiet)
    ensures PostSeen(c, d, Then(r.seen, s), quiet)
  {
    forall f | f in d && Fatal(c, f) && Entered(r.seen + s.seen, f.pos)
      ensures Entered(s.seen, f.pos)
    {
      var caps :| Enter(f.pos, caps) in r.seen + s.seen;
      if Enter(f.pos, caps) in r.seen {
        assert Entered(r.seen, f.pos);
      }
    }
  }

  // ---- literals waiting on the stack

  predicate IsLit(n: Node) {
    n.Blk? || n.Cap?
  }

  function LitVal(n: Node): Value
    requires IsLit(n)
  {
    if n.Blk? then VBlk(n.nodes) else VCap(n.cap)
  }

  /** How many of the two nodes before i left a literal on top of the stack. */
  function Lits(nodes: seq<Node>, i: nat): nat
    requires i <= |nodes|
  {
    if i >= 1 && IsLit(nodes[i - 1]) then (if i >= 2 && IsLit(nodes[i - 2]) then 2 else 1) else 0
  }

  /** Between the `?` and the `@` of `? @`. */
  predicate Selected(nodes: seq<Node>, i: nat) {
    i >= 1 && OpAt(nodes, i - 1, "?") && OpAt(nodes, i, "@")
  }

  ghost predicate RunOk(c: Ctx, d: set<Finding>, b: seq<Node>, known: Known, inTy: bool, moved: set<string>) {
    Seen(c, b) && (Safe(c, d, b, 0, known, inTy, moved) || Loose(c, d, b))
  }

  ghost predicate StackOk(c: Ctx, d: set<Finding>, nodes: seq<Node>, i: nat, stack: seq<Value>,
                          known: Known, inTy: bool, moved: set<string>)
    requires i <= |nodes|
  {
    var n := |stack|;
    if Selected(nodes, i) then
      n >= 1 && AllOk(c, d, stack[..n - 1]) && stack[n - 1].VBlk? && RunOk(c, d, stack[n - 1].nodes, known, inTy, moved)
    else
      var k := Lits(nodes, i);
      && n >= k && AllOk(c, d, stack[..n - k])
      && (k >= 1 ==> stack[n - 1] == LitVal(nodes[i - 1]) && ChildOk(c, d, nodes, i - 1, known, inTy, moved))
      && (k >= 2 ==> stack[n - 2] == LitVal(nodes[i - 2]) && ChildOk(c, d, nodes, i - 2, known, inTy, moved))
  }

  lemma LitEscapes(c: Ctx, d: set<Finding>, nodes: seq<Node>, j: nat, known: Known, inTy: bool, moved: set<string>)
    requires Seen(c, nodes) && j < |nodes| && IsLit(nodes[j]) && ChildOk(c, d, nodes, j, known, inTy, moved)
    requires nodes[j].Blk? ==> UseOf(c, nodes, j) == Escapes
    requires nodes[j].Cap? ==> !WordAt(c, nodes, j + 1, "rq") && !WordAt(c, nodes, j + 1, "hv")
    ensures ValOk(c, d, LitVal(nodes[j]))
  {
    FreeAt(c, nodes, 0, j);
    if nodes[j].Blk? {
      SeenChild(c, nodes, j);
    }
  }

  /** The node at i takes a pair of block literals: `;`, or `?` before `@`. */
  predicate TakesTwo(nodes: seq<Node>, i: nat) {
    OpAt(nodes, i, ";") || (OpAt(nodes, i, "?") && OpAt(nodes, i + 1, "@"))
  }

  predicate TakesOne(c: Ctx, nodes: seq<Node>, i: nat) {
    || TakesTwo(nodes, i) || OpAt(nodes, i, "@") || OpAt(nodes, i, "??")
    || WordAt(c, nodes, i, "gr") || WordAt(c, nodes, i, "ty")
    || WordAt(c, nodes, i, "rq") || WordAt(c, nodes, i, "hv")
  }

  lemma SecondOk(c: Ctx, d: set<Finding>, nodes: seq<Node>, i: nat, known: Known, inTy: bool, moved: set<string>)
    requires Seen(c, nodes) && i <= |nodes| && Lits(nodes, i) == 2 && ChildOk(c, d, nodes, i - 2, known, inTy, moved)
    requires !(nodes[i - 1].Blk? && TakesTwo(nodes, i))
    ensures ValOk(c, d, LitVal(nodes[i - 2]))
  {
    LitEscapes(c, d, nodes, i - 2, known, inTy, moved);
  }

  lemma FirstOk(c: Ctx, d: set<Finding>, nodes: seq<Node>, i: nat, known: Known, inTy: bool, moved: set<string>)
    requires Seen(c, nodes) && i <= |nodes| && Lits(nodes, i) >= 1 && ChildOk(c, d, nodes, i - 1, known, inTy, moved)
    requires !TakesOne(c, nodes, i) && !BlkAt(nodes, i)
    ensures ValOk(c, d, LitVal(nodes[i - 1]))
  {
    LitEscapes(c, d, nodes, i - 1, known, inTy, moved);
  }

  /** Before a node that takes no literal specially, every value is in order. */
  lemma Settled(c: Ctx, d: set<Finding>, nodes: seq<Node>, i: nat, stack: seq<Value>, known: Known, inTy: bool,
                moved: set<string>)
    requires Seen(c, nodes) && i <= |nodes| && StackOk(c, d, nodes, i, stack, known, inTy, moved)
    requires !TakesOne(c, nodes, i) && !BlkAt(nodes, i)
    ensures AllOk(c, d, stack)
  {
    var n, k := |stack|, Lits(nodes, i);
    if k >= 1 {
      FirstOk(c, d, nodes, i, known, inTy, moved);
    }
    if k >= 2 {
      SecondOk(c, d, nodes, i, known, inTy, moved);
    }
    forall j | 0 <= j < n
      ensures ValOk(c, d, stack[j])
    {
      if j < n - k {
        assert stack[..n - k][j] == stack[j];
      }
    }
  }

  /** Below the topmost literal, every value is in order. */
  lemma SettledBelow(c: Ctx, d: set<Finding>, nodes: seq<Node>, i: nat, stack: seq<Value>, known: Known, inTy: bool,
                     moved: set<string>)
    requires Seen(c, nodes) && i <= |nodes| && StackOk(c, d, nodes, i, stack, known, inTy, moved)
    requires !Selected(nodes, i) && !TakesTwo(nodes, i) && |stack| >= 1
    ensures AllOk(c, d, stack[..|stack| - 1])
  {
    var n, k := |stack|, Lits(nodes, i);
    if k >= 2 {
      SecondOk(c, d, nodes, i, known, inTy, moved);
    }
    var below := stack[..n - 1];
    forall j | 0 <= j < |below|
      ensures ValOk(c, d, below[j])
    {
      if j < n - k {
        assert stack[..n - k][j] == below[j];
      }
    }
  }

  lemma AllOkSnoc(c: Ctx, d: set<Finding>, vs: seq<Value>, v: Value)
    requires AllOk(c, d, vs) && ValOk(c, d, v)
    ensures AllOk(c, d, vs + [v])
  {
  }

  /** A literal joins the stack. */
  lemma PushLit(c: Ctx, d: set<Finding>, nodes: seq<Node>, i: nat, stack: seq<Value>, known: Known, inTy: bool,
                moved: set<string>)
    requires Seen(c, nodes) && i < |nodes| && IsLit(nodes[i]) && ChildOk(c, d, nodes, i, known, inTy, moved)
    requires StackOk(c, d, nodes, i, stack, known, inTy, moved)
    ensures StackOk(c, d, nodes, i + 1, stack + [LitVal(nodes[i])], known, inTy, moved)
  {
    var n, v := |stack|, LitVal(nodes[i]);
    if Lits(nodes, i) == 0 {
      assert stack[..n - 0] == stack;
      FirstPut(stack, stack + [v], v);
    } else {
      SettledBelow(c, d, nodes, i, stack, known, inTy, moved);
      NextPut(stack, stack + [v], v);
    }
  }

  lemma FirstPut(stack: seq<Value>, next: seq<Value>, v: Value)
    requires next == stack + [v]
    ensures |next| == |stack| + 1 && next[|next| - 1] == v && next[..|next| - 1] == stack
  {
  }

  lemma NextPut(stack: seq<Value>, next: seq<Value>, v: Value)
    requires next == stack + [v] && stack != []
    ensures |next| == |stack| + 1 && next[|next| - 1] == v && next[|next| - 2] == stack[|stack| - 1]
    ensures next[..|next| - 2] == stack[..|stack| - 1]
  {
  }

  ghost predicate EffectOk(c: Ctx, d: set<Finding>, e: Effect) {
    match e
    case Next(s) => AllOk(c, d, s)
    case Print(s, _) => AllOk(c, d, s)
    case Err(_) => true
  }

  lemma ArithOk(c: Ctx, d: set<Finding>, sym: string, rest: seq<Value>, a: Value, b: Value)
    requires AllOk(c, d, rest) && IsNum(a) && IsNum(b) && sym in ARITH
    ensures EffectOk(c, d, Arith(sym, rest, a, b))
  {
  }

  lemma CompareOk(c: Ctx, d: set<Finding>, sym: string, rest: seq<Value>, a: Value, b: Value)
    requires AllOk(c, d, rest)
    ensures EffectOk(c, d, Compare(sym, rest, a, b))
  {
  }

  /** Operators that run no code pass values on and make only numbers. */
  lemma BasicOk(c: Ctx, d: set<Finding>, sym: string, stack: seq<Value>)
    requires AllOk(c, d, stack)
    ensures EffectOk(c, d, Basic(sym, stack))
  {
    var n := |stack|;
    if n >= 1 {
      var b, rest := stack[n - 1], stack[..n - 1];
      assert AllOk(c, d, rest);
      AllOkSnoc(c, d, stack, b);
      if n >= 2 {
        var a, rest2 := stack[n - 2], stack[..n - 2];
        assert AllOk(c, d, rest2);
        AllOkSnoc(c, d, stack, a);
        AllOkSnoc(c, d, rest2 + [b], a);
        assert rest2 + [b] + [a] == rest2 + [b, a];
        if sym in ARITH && IsNum(a) && IsNum(b) {
          ArithOk(c, d, sym, rest2, a, b);
        }
        CompareOk(c, d, sym, rest2, a, b);
      }
    }
  }
}
