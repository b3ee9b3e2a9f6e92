// Lowering keeps the meaning of a program: the compiled blocks reach the same
// stack, bindings, output and fault as the stack machine on the program itself,
// unless the run compares two different empty blocks: to the machine two empty
// quotations are equal, to the runtime they are two blocks.

module LoweringSound {
  import opened Syntax
  import opened Lowering
  import opened Native
  import M = Machine

  // ---- related values and states

  /** A block value stands for the quotation that its block came from. */
  predicate Rel(origin: seq<seq<Node>>, v: Val, w: M.Value) {
    match v
    case Plain(x) => w == x && !x.VBlk? && !x.VRes?
    case Func(id, nodes) => id < |origin| && w == M.VBlk(origin[id]) && nodes == |origin[id]|
    case Res(ok, x) => w.VRes? && w.ok == ok && Rel(origin, x, w.val)
  }

  ghost predicate RelSeq(origin: seq<seq<Node>>, a: seq<Val>, b: seq<M.Value>) {
    |a| == |b| && forall i :: 0 <= i < |a| ==> Rel(origin, a[i], b[i])
  }

  ghost predicate RelEnv(origin: seq<seq<Node>>, e: map<string, Val>, f: M.Env) {
    e.Keys == f.Keys && forall x :: x in e ==> Rel(origin, e[x], f[x])
  }

  ghost predicate RelState(origin: seq<seq<Node>>, s: State, t: M.State) {
    && RelSeq(origin, s.stack, t.stack) && RelEnv(origin, s.env, t.env)
    && s.caps == t.caps && s.depth == t.depth && RelSeq(origin, s.out, t.out)
  }

  ghost predicate RelResult(origin: seq<seq<Node>>, r: Result, m: M.Result) {
    r.status == m.status && RelState(origin, r.st, m.st)
  }

  ghost predicate RelEffect(origin: seq<seq<Node>>, e: Effect, m: M.Effect) {
    match (e, m)
    case (Next(a), Next(b)) => RelSeq(origin, a, b)
    case (Print(a, v), Print(b, w)) => RelSeq(origin, a, b) && Rel(origin, v, w)
    case (Err(code), Err(code')) => code == code'
    case _ => false
  }

  // ---- equality

  /** Only empty quotations look alike. */
  ghost predicate Apart(origin: seq<seq<Node>>) {
    forall i, j :: 0 <= i < j < |origin| && origin[i] == origin[j] ==> origin[i] == []
  }

  /** The two equalities agree on everything else. */
  lemma {:induction false} EqualAgrees(origin: seq<seq<Node>>, a: Val, b: Val, w: M.Value, u: M.Value)
    requires Apart(origin) && Rel(origin, a, w) && Rel(origin, b, u)
    ensures (Equal(a, b) <==> M.Equal(w, u)) <==> !Twins(a, b)
  {
    if a.Res? && b.Res? {
      EqualAgrees(origin, a.val, b.val, w.val, u.val);
    } else if a.Func? && b.Func? && a.id != b.id {
      var i, j := if a.id < b.id then a.id else b.id, if a.id < b.id then b.id else a.id;
      assert origin[i] == origin[j] ==> origin[i] == [];
    }
  }

  ghost predicate Twinless(origin: seq<seq<Node>>) {
    forall i, j :: 0 <= i < j < |origin| ==> origin[i] != origin[j]
  }

  lemma {:induction false} NeverTwins(origin: seq<seq<Node>>, a: Val, b: Val, w: M.Value, u: M.Value)
    requires Twinless(origin) && Rel(origin, a, w) && Rel(origin, b, u)
    ensures !Twins(a, b)
  {
    if a.Res? && b.Res? {
      NeverTwins(origin, a.val, b.val, w.val, u.val);
    } else if a.Func? && b.Func? {
      assert a.id < b.id ==> origin[a.id] != origin[b.id];
      assert b.id < a.id ==> origin[b.id] != origin[a.id];
    }
  }

  /** A table and the quotations it came from. */
  datatype Link = Link(blocks: seq<Block>, origin: seq<seq<Node>>)
  type Linked = l: Link | TableFrom(l.blocks, l.origin) && Apart(l.origin) witness Link([], [])

  lemma EqualSame(l: Linked, a: Val, b: Val, w: M.Value, u: M.Value)
    requires Rel(l.origin, a, w) && Rel(l.origin, b, u) && !Twins(a, b)
    ensures Equal(a, b) == M.Equal(w, u)
  {
    EqualAgrees(l.origin, a, b, w, u);
  }

  // ---- programs that never compare twins

  predicate Compares(c: Instr) {
    c.Oper? && (c.sym == "==" || c.sym == "!=")
  }

  /** No instruction compares for equality. */
  ghost predicate NoCompare(blocks: seq<Block>) {
    forall id, k :: 0 <= id < |blocks| && 0 <= k < |blocks[id]| ==> !Compares(blocks[id][k])
  }

  /** Two ways to be sure: no two quotations are alike, or nothing is compared. */
  ghost predicate Safe(l: Link) {
    Twinless(l.origin) || NoCompare(l.blocks)
  }

  lemma SafeOper(l: Linked, c: Instr, sym: string, a: seq<Val>, b: seq<M.Value>)
    requires Safe(l) && (NoCompare(l.blocks) ==> !Compares(c)) && c == Oper(sym) && RelSeq(l.origin, a, b)
    ensures !MeetsTwins(sym, a)
  {
    var n := |a|;
    if n >= 2 && Twinless(l.origin) {
      NeverTwins(l.origin, a[n - 2], a[n - 1], b[n - 2], b[n - 1]);
    }
  }

  // ---- operators

  lemma Kinds(origin: seq<seq<Node>>, v: Val, w: M.Value)
    requires Rel(origin, v, w)
    ensures Truthy(v) == M.Truthy(w) && TypeName(v) == M.TypeName(w) && IsNum(v) == M.IsNum(w)
    ensures v.Func? == w.VBlk? && v.Res? == w.VRes?
  {
  }

  lemma RelFront(origin: seq<seq<Node>>, a: seq<Val>, b: seq<M.Value>, k: nat)
    requires RelSeq(origin, a, b) && k <= |a|
    ensures RelSeq(origin, a[..k], b[..k])
  {
  }

  /** What an operator leaves below its one plain result. */
  ghost predicate Framed(rest: seq<M.Value>, alone: M.Effect, e: M.Effect) {
    match alone
    case Next(stack) => |stack| == 1 && M.IsNum(stack[0]) && e == M.Next(rest + [stack[0]])
    case Print(_, _) => false
    case Err(_) => e == alone
  }

  lemma ArithFramed(sym: string, rest: seq<M.Value>, a: M.Value, b: M.Value)
    requires M.IsNum(a) && M.IsNum(b) && sym in M.ARITH
    ensures Framed(rest, M.Arith(sym, [], a, b), M.Arith(sym, rest, a, b))
  {
  }

  lemma CompareFramed(sym: string, rest: seq<M.Value>, a: M.Value, b: M.Value)
    ensures Framed(rest, M.Compare(sym, [], a, b), M.Compare(sym, rest, a, b))
  {
  }

  lemma NegFramed(rest: seq<M.Value>, b: M.Value)
    ensures Framed(rest, M.Basic("_", [b]), M.Basic("_", rest + [b]))
  {
    assert [b][..0] == [] && (rest + [b])[..|rest|] == rest;
  }

  lemma LiftRel(origin: seq<seq<Node>>, rest: seq<Val>, rest': seq<M.Value>, alone: M.Effect, e: M.Effect)
    requires RelSeq(origin, rest, rest') && Framed(rest', alone, e)
    ensures RelEffect(origin, Lift(rest, alone), e)
  {
  }

  lemma CompareRel(l: Linked, sym: string, rest: seq<Val>, rest': seq<M.Value>, a: Val, b: Val, w: M.Value, u: M.Value)
    requires RelSeq(l.origin, rest, rest') && Rel(l.origin, a, w) && Rel(l.origin, b, u)
    requires sym == "==" || sym == "!=" ==> !Twins(a, b)
    ensures RelEffect(l.origin, Compare(sym, rest, a, b), M.Compare(sym, rest', w, u))
  {
    if a.Plain? && b.Plain? {
      CompareFramed(sym, rest', w, u);
      LiftRel(l.origin, rest, rest', M.Compare(sym, [], w, u), M.Compare(sym, rest', w, u));
    } else {
      Kinds(l.origin, a, w);
      Kinds(l.origin, b, u);
      if sym == "==" || sym == "!=" {
        EqualSame(l, a, b, w, u);
      }
    }
  }

  lemma OneRel(l: Linked, sym: string, a: seq<Val>, b: seq<M.Value>)
    requires RelSeq(l.origin, a, b) && |a| > 0 && sym in {"=", ",", ".", "!", "_"}
    ensures RelEffect(l.origin, Basic(sym, a), M.Basic(sym, b))
  {
    var n := |a|;
    var v, w, rest, rest' := a[n - 1], b[n - 1], a[..n - 1], b[..n - 1];
    RelFront(l.origin, a, b, n - 1);
    Kinds(l.origin, v, w);
    if sym == "_" {
      if v.Plain? {
        NegFramed(rest', w);
        assert b == rest' + [w];
        LiftRel(l.origin, rest, rest', M.Basic("_", [w]), M.Basic("_", b));
      }
    }
  }

  lemma TwoRel(l: Linked, sym: string, a: seq<Val>, b: seq<M.Value>)
    requires RelSeq(l.origin, a, b) && |a| > 1 && sym !in {"=", ",", ".", "!", "_"} && !MeetsTwins(sym, a)
    ensures RelEffect(l.origin, Basic(sym, a), M.Basic(sym, b))
  {
    var n := |a|;
    var x, y, rest := a[n - 2], a[n - 1], a[..n - 2];
    var w, u, rest' := b[n - 2], b[n - 1], b[..n - 2];
    RelFront(l.origin, a, b, n - 2);
    Kinds(l.origin, x, w);
    Kinds(l.origin, y, u);
    if sym in M.ARITH {
      if IsNum(x) && IsNum(y) {
        ArithFramed(sym, rest', w, u);
        LiftRel(l.origin, rest, rest', M.Arith(sym, [], w, u), M.Arith(sym, rest', w, u));
      }
    } else if sym in M.COMPARE {
      CompareRel(l, sym, rest, rest', x, y, w, u);
    }
  }

  lemma BasicRel(l: Linked, sym: string, a: seq<Val>, b: seq<M.Value>)
    requires RelSeq(l.origin, a, b) && !MeetsTwins(sym, a)
    ensures RelEffect(l.origin, Basic(sym, a), M.Basic(sym, b))
  {
    if |a| > 0 {
      if sym in {"=", ",", ".", "!", "_"} {
        OneRel(l, sym, a, b);
      } else if |a| > 1 {
        TwoRel(l, sym, a, b);
      } else {
        Kinds(l.origin, a[0], b[0]);
      }
    }
  }

  /** Such a comparison does come out differently: the two are never related after it. */
  lemma TwinsDiffer(l: Linked, sym: string, a: seq<Val>, b: seq<M.Value>)
    requires RelSeq(l.origin, a, b) && MeetsTwins(sym, a)
    ensures !RelEffect(l.origin, Basic(sym, a), M.Basic(sym, b))
  {
    var n := |a|;
    var x, y, w, u := a[n - 2], a[n - 1], b[n - 2], b[n - 1];
    EqualAgrees(l.origin, x, y, w, u);
    Kinds(l.origin, x, w);
    Kinds(l.origin, y, u);
    var mine := Bit(a[..n - 2], (sym == "==") == Equal(x, y));
    var theirs := M.Bit(b[..n - 2], (sym == "==") == M.Equal(w, u));
    assert Basic(sym, a) == mine && M.Basic(sym, b) == theirs;
    assert !Rel(l.origin, mine.stack[n - 2], theirs.stack[n - 2]);
  }

  // ---- pattern arms

  ghost predicate RelChoice(l: Linked, c: Choice, m: M.Choice) {
    match (c, m)
    case (Chosen(body, v), Chosen(nodes, w)) => body < |l.origin| && l.origin[body] == nodes && Rel(l.origin, v, w)
    case (Refused(code), Refused(code')) => code == code'
    case _ => false
  }

  lemma At(l: Linked, id: nat, k: nat)
    requires id < |l.blocks| && k < |l.blocks[id]|
    ensures |l.blocks| == |l.origin| && |l.blocks[id]| == |l.origin[id]|
    ensures InstrFrom(l.blocks[id][k], l.origin[id][k], l.origin, id)
  {
    assert BlockFrom(l.blocks[id], l.origin[id], l.origin, id);
  }

  lemma Sizes(l: Linked, id: nat)
    requires id < |l.origin|
    ensures |l.blocks| == |l.origin| && |Shape(l.blocks, id)| == |l.origin[id]|
  {
    assert BlockFrom(l.blocks[id], l.origin[id], l.origin, id);
  }

  lemma {:induction false} ChooseRel(l: Linked, id: nat, i: nat, v: Val, w: M.Value)
    requires id < |l.blocks| == |l.origin| && |l.blocks[id]| == |l.origin[id]|
    requires |l.origin[id]| % 2 == 0 && i % 2 == 0 && Rel(l.origin, v, w)
    ensures RelChoice(l, Choose(l.blocks, l.blocks[id], i, v), M.Choose(l.origin[id], i, w))
    decreases |l.origin[id]| - i
  {
    if i >= |l.origin[id]| {
      NoArm(l, id, i, v, w);
    } else if l.origin[id][i].Blk? && l.origin[id][i + 1].Blk? {
      ChooseRel(l, id, i + 2, v, w);
      ArmRel(l, id, i, v, w);
    } else {
      BadArm(l, id, i, v, w);
    }
  }

  lemma NoArm(l: Linked, id: nat, i: nat, v: Val, w: M.Value)
    requires id < |l.blocks| == |l.origin| && |l.blocks[id]| == |l.origin[id]| <= i
    requires |l.origin[id]| % 2 == 0 && i % 2 == 0
    ensures RelChoice(l, Choose(l.blocks, l.blocks[id], i, v), M.Choose(l.origin[id], i, w))
  {
  }

  lemma BadArm(l: Linked, id: nat, i: nat, v: Val, w: M.Value)
    requires id < |l.blocks| == |l.origin| && |l.blocks[id]| == |l.origin[id]|
    requires |l.origin[id]| % 2 == 0 && i % 2 == 0 && i + 1 < |l.origin[id]|
    requires !(l.origin[id][i].Blk? && l.origin[id][i + 1].Blk?)
    ensures RelChoice(l, Choose(l.blocks, l.blocks[id], i, v), M.Choose(l.origin[id], i, w))
  {
    NoPair(l, id, i);
    Malformed(l.blocks, l.blocks[id], i, v);
    MalformedNodes(l.origin[id], i, w);
  }

  lemma NoPair(l: Linked, id: nat, i: nat)
    requires id < |l.blocks| == |l.origin| && |l.blocks[id]| == |l.origin[id]| && i + 1 < |l.origin[id]|
    requires !(l.origin[id][i].Blk? && l.origin[id][i + 1].Blk?)
    ensures !l.blocks[id][i].ConstBlock? || !l.blocks[id][i + 1].ConstBlock?
  {
    At(l, id, i);
    At(l, id, i + 1);
  }

  lemma Malformed(blocks: seq<Block>, arms: Block, i: nat, v: Val)
    requires |arms| % 2 == 0 && i % 2 == 0 && i + 1 < |arms| && (!arms[i].ConstBlock? || !arms[i + 1].ConstBlock?)
    ensures Choose(blocks, arms, i, v) == Refused("BAD_PATTERN")
  {
  }

  lemma MalformedNodes(arms: seq<Node>, i: nat, w: M.Value)
    requires |arms| % 2 == 0 && i % 2 == 0 && i + 1 < |arms| && (!arms[i].Blk? || !arms[i + 1].Blk?)
    ensures M.Choose(arms, i, w) == M.Refused("BAD_PATTERN")
  {
  }

  lemma ArmRel(l: Linked, id: nat, i: nat, v: Val, w: M.Value)
    requires id < |l.blocks| == |l.origin| && |l.blocks[id]| == |l.origin[id]|
    requires |l.origin[id]| % 2 == 0 && i % 2 == 0 && i + 1 < |l.origin[id]| && Rel(l.origin, v, w)
    requires l.origin[id][i].Blk? && l.origin[id][i + 1].Blk?
    requires RelChoice(l, Choose(l.blocks, l.blocks[id], i + 2, v), M.Choose(l.origin[id], i + 2, w))
    ensures RelChoice(l, Choose(l.blocks, l.blocks[id], i, v), M.Choose(l.origin[id], i, w))
  {
    At(l, id, i);
    At(l, id, i + 1);
    var pat, nodes := l.blocks[id][i].id, l.origin[id][i].nodes;
    Sizes(l, pat);
    if |nodes| == 1 {
      At(l, pat, 0);
      assert Shape(l.blocks, pat) == [l.blocks[pat][0]] && nodes == [nodes[0]];
      PatternRel(l, id, i, v, w, l.blocks[pat][0], nodes[0]);
    }
  }

  /** One arm with a pattern of one token, as instructions and as nodes, and what
      the arms after it come to. */
  ghost predicate ArmAt(l: Linked, id: nat, i: nat, v: Val, w: M.Value, c: Instr, n: Node) {
    && id < |l.blocks| == |l.origin| && |l.blocks[id]| == |l.origin[id]| && i % 2 == 0 && i + 1 < |l.blocks[id]| && |l.blocks[id]| % 2 == 0
    && Rel(l.origin, v, w) && InstrFrom(c, n, l.origin, |l.origin|)
    && l.origin[id][i].Blk? && l.origin[id][i + 1].Blk? && l.origin[id][i].nodes == [n]
    && l.blocks[id][i].ConstBlock? && Shape(l.blocks, l.blocks[id][i].id) == [c]
    && InstrFrom(l.blocks[id][i + 1], l.origin[id][i + 1], l.origin, id)
    && RelChoice(l, Choose(l.blocks, l.blocks[id], i + 2, v), M.Choose(l.origin[id], i + 2, w))
  }

  lemma PatternRel(l: Linked, id: nat, i: nat, v: Val, w: M.Value, c: Instr, n: Node)
    requires ArmAt(l, id, i, v, w, c, n)
    ensures RelChoice(l, Choose(l.blocks, l.blocks[id], i, v), M.Choose(l.origin[id], i, w))
  {
    if n.Int? || n.Flt? || n.Str? {
      LiteralRel(l, id, i, v, w, c, n);
    } else if n.Name? {
      NameRel(l, id, i, v, w, c, n);
    }
  }

  lemma LiteralRel(l: Linked, id: nat, i: nat, v: Val, w: M.Value, c: Instr, n: Node)
    requires ArmAt(l, id, i, v, w, c, n) && (n.Int? || n.Flt? || n.Str?)
    ensures RelChoice(l, Choose(l.blocks, l.blocks[id], i, v), M.Choose(l.origin[id], i, w))
  {
    EqualSame(l, v, Plain(M.LiteralValue(n)), w, M.LiteralValue(n));
  }

  lemma NameRel(l: Linked, id: nat, i: nat, v: Val, w: M.Value, c: Instr, n: Node)
    requires ArmAt(l, id, i, v, w, c, n) && n.Name?
    ensures RelChoice(l, Choose(l.blocks, l.blocks[id], i, v), M.Choose(l.origin[id], i, w))
  {
    Kinds(l.origin, v, w);
  }

  // ---- stacks

  lemma PushRel(l: Linked, s: State, t: M.State, v: Val, w: M.Value)
    requires RelState(l.origin, s, t) && Rel(l.origin, v, w)
    ensures RelState(l.origin, Push(s, v), M.Push(t, w))
  {
  }

  lemma PopRel(l: Linked, s: State, t: M.State, k: nat)
    requires RelState(l.origin, s, t) && k <= |s.stack|
    ensures RelState(l.origin, Pop(s, k), M.Pop(t, k))
  {
  }

  lemma TopRel(l: Linked, s: State, t: M.State, k: nat)
    requires RelState(l.origin, s, t) && k >= 1
    ensures |s.stack| == |t.stack| && HasFunc(s, k) == M.HasBlock(t, k)
    ensures k <= |s.stack| ==> Rel(l.origin, Top(s, k), M.Top(t, k))
    ensures HasFunc(s, k) ==> Top(s, k).id < |l.origin| && l.origin[Top(s, k).id] == M.Top(t, k).nodes
    ensures k <= |s.stack| ==> HasCap(s, k) == M.Top(t, k).VCap? && Truthy(Top(s, k)) == M.Truthy(M.Top(t, k))
  {
    if k <= |s.stack| {
      Kinds(l.origin, Top(s, k), M.Top(t, k));
    }
  }

  // ---- runs

  /** The two end alike or twins were compared, which safe programs do not. */
  ghost predicate Outcome(l: Link, s: State, r: Result, m: M.Result) {
    && (r.st.met || RelResult(l.origin, r, m))
    && (Safe(l) && !s.met ==> !r.st.met)
  }

  lemma {:induction false} SimBlock(l: Linked, id: nat, k: nat, s: State, t: M.State, fuel: nat)
    requires id < |l.origin| && |Shape(l.blocks, id)| == |l.origin[id]| && k <= |l.origin[id]| && RelState(l.origin, s, t)
    ensures Outcome(l, s, RunBlock(l.blocks, Shape(l.blocks, id), k, s, fuel), M.ExecSeq(l.origin[id], k, t, fuel))
    decreases fuel, M.Room(t), |l.origin[id]| - k + 5
  {
    if k < |l.origin[id]| {
      Sizes(l, id);
      At(l, id, k);
      var c, n := l.blocks[id][k], l.origin[id][k];
      SimInstr(l, c, n, s, t, fuel);
      var r, m := RunInstr(l.blocks, c, s, fuel), M.ExecNode(n, t, fuel);
      if r.status.Ran? && !r.st.met {
        SimBlock(l, id, k + 1, r.st, m.st, fuel);
      }
    }
  }

  lemma {:induction false} SimInstr(l: Linked, c: Instr, n: Node, s: State, t: M.State, fuel: nat)
    requires InstrFrom(c, n, l.origin, |l.origin|) && RelState(l.origin, s, t)
    requires NoCompare(l.blocks) ==> !Compares(c)
    ensures Outcome(l, s, RunInstr(l.blocks, c, s, fuel), M.Exec(n, t, fuel))
    decreases fuel, M.Room(t), 4
  {
    match n
    case Blk(nodes, _) =>
      Sizes(l, c.id);
      PushRel(l, s, t, Func(c.id, |nodes|), M.VBlk(nodes));
    case Name(x, _) =>
      if x in t.env {
        PushRel(l, s, t, s.env[x], t.env[x]);
      } else if x in M.BUILTINS {
        SimWord(l, x, s, t, fuel);
      }
    case Bind(_, _) =>
      if s.stack != [] {
        TopRel(l, s, t, 1);
        PopRel(l, s, t, 1);
      }
    case Move(x, _) =>
      if x in t.env {
        PushRel(l, s.(env := s.env - {x}), t.(env := t.env - {x}), s.env[x], t.env[x]);
      }
    case Op(sym, _) => SimOp(l, sym, c, s, t, fuel);
    case _ =>
  }

  lemma {:induction false} SimOp(l: Linked, sym: string, c: Instr, s: State, t: M.State, fuel: nat)
    requires c == InstrOf(Op(sym, 0)) && RelState(l.origin, s, t)
    requires NoCompare(l.blocks) ==> !Compares(c)
    ensures Outcome(l, s, RunInstr(l.blocks, c, s, fuel), M.ExecOp(sym, t, fuel))
    decreases fuel, M.Room(t), 3
  {
    TopRel(l, s, t, 1);
    TopRel(l, s, t, 2);
    if c.Select? {
      SimSelect(l, s, t, fuel);
    } else if c.Invoke? {
      if HasFunc(s, 1) {
        PopRel(l, s, t, 1);
        SimCall(l, Top(s, 1).id, Pop(s, 1), M.Pop(t, 1), fuel);
      }
    } else if c.Loop? {
      if HasFunc(s, 1) && HasFunc(s, 2) {
        PopRel(l, s, t, 2);
        SimWhile(l, Top(s, 2).id, Top(s, 1).id, Pop(s, 2), M.Pop(t, 2), fuel);
      }
    } else if c.Match? {
      if HasFunc(s, 1) && |s.stack| >= 2 {
        PopRel(l, s, t, 2);
        SimMatch(l, Top(s, 1).id, Top(s, 2), M.Top(t, 2), Pop(s, 2), M.Pop(t, 2), fuel);
      }
    } else {
      if Safe(l) {
        SafeOper(l, c, sym, s.stack, t.stack);
      }
      if !MeetsTwins(sym, s.stack) {
        BasicRel(l, sym, s.stack, t.stack);
      }
    }
  }

  lemma SimSelect(l: Linked, s: State, t: M.State, fuel: nat)
    requires RelState(l.origin, s, t)
    ensures Outcome(l, s, RunInstr(l.blocks, Select, s, fuel), M.ExecOp("?", t, fuel))
  {
    TopRel(l, s, t, 1);
    TopRel(l, s, t, 2);
    TopRel(l, s, t, 3);
    if HasFunc(s, 1) && HasFunc(s, 2) && |s.stack| >= 3 {
      PopRel(l, s, t, 3);
      var yes := Truthy(Top(s, 3));
      PushRel(l, Pop(s, 3), M.Pop(t, 3), if yes then Top(s, 2) else Top(s, 1), if yes then M.Top(t, 2) else M.Top(t, 1));
    }
  }

  lemma {:induction false} SimWord(l: Linked, x: string, s: State, t: M.State, fuel: nat)
    requires x in M.BUILTINS && RelState(l.origin, s, t)
    ensures Outcome(l, s, RunWord(l.blocks, x, s, fuel), M.ExecWord(x, t, fuel))
    decreases fuel, M.Room(t), 3
  {
    TopRel(l, s, t, 1);
    TopRel(l, s, t, 2);
    if x == "gr" {
      if HasFunc(s, 1) && |s.stack| >= 2 && HasCap(s, 2) {
        PopRel(l, s, t, 2);
        SimGrant(l, Top(s, 2).v.cap, Top(s, 1).id, Pop(s, 2), M.Pop(t, 2), fuel);
      }
    } else if x == "ty" {
      if HasFunc(s, 1) {
        PopRel(l, s, t, 1);
        SimTry(l, Top(s, 1).id, Pop(s, 1), M.Pop(t, 1), fuel);
      }
    } else if s.stack != [] {
      PopRel(l, s, t, 1);
    }
  }

  lemma {:induction false} SimGrant(l: Linked, cap: string, body: nat, s: State, t: M.State, fuel: nat)
    requires body < |l.origin| && RelState(l.origin, s, t)
    ensures Outcome(l, s, Grant(l.blocks, cap, body, s, fuel), M.ExecGrant(cap, l.origin[body], t, fuel))
    decreases fuel, M.Room(t), 2
  {
    SimCall(l, body, s.(caps := s.caps + {cap}), t.(caps := t.caps + {cap}), fuel);
  }

  lemma {:induction false} SimTry(l: Linked, body: nat, s: State, t: M.State, fuel: nat)
    requires body < |l.origin| && RelState(l.origin, s, t)
    ensures Outcome(l, s, Try(l.blocks, body, s, fuel), M.ExecTry(l.origin[body], t, fuel))
    decreases fuel, M.Room(t), 2
  {
    SimCall(l, body, s.(stack := []), t.(stack := []), fuel);
    var r, m := Call(l.blocks, body, s.(stack := []), fuel), M.Invoke(l.origin[body], t.(stack := []), fuel);
    if r.st.met {
      return;
    }
    match r.status
    case Raised(code) =>
      PushRel(l, r.st.(stack := s.stack), m.st.(stack := t.stack), Res(false, Plain(M.VStr(code))), M.VRes(false, M.VStr(code)));
    case Spent =>
    case Ran =>
      if |r.st.stack| == 1 {
        PushRel(l, r.st.(stack := s.stack), m.st.(stack := t.stack), Res(true, r.st.stack[0]), M.VRes(true, m.st.stack[0]));
      }
  }

  lemma {:induction false} SimMatch(l: Linked, arms: nat, v: Val, w: M.Value, s: State, t: M.State, fuel: nat)
    requires arms < |l.origin| && Rel(l.origin, v, w) && RelState(l.origin, s, t)
    ensures Outcome(l, s, RunMatch(l.blocks, Shape(l.blocks, arms), v, s, fuel), M.ExecMatch(l.origin[arms], w, t, fuel))
    decreases fuel, M.Room(t), 2
  {
    Sizes(l, arms);
    if |l.origin[arms]| % 2 == 0 {
      ChooseRel(l, arms, 0, v, w);
      var c, m := Choose(l.blocks, Shape(l.blocks, arms), 0, v), M.Choose(l.origin[arms], 0, w);
      if c.Chosen? {
        PushRel(l, s, t, c.value, m.value);
        SimCall(l, c.body, Push(s, c.value), M.Push(t, m.value), fuel);
      }
    }
  }

  lemma {:induction false} SimWhile(l: Linked, cond: nat, body: nat, s: State, t: M.State, fuel: nat)
    requires cond < |l.origin| && body < |l.origin| && RelState(l.origin, s, t)
    ensures Outcome(l, s, While(l.blocks, cond, body, s, fuel), M.While(l.origin[cond], l.origin[body], t, fuel))
    decreases fuel, M.Room(t), 2
  {
    SimCall(l, cond, s, t, fuel);
    var r, m := Call(l.blocks, cond, s, fuel), M.Invoke(l.origin[cond], t, fuel);
    if r.status.Ran? && r.st.stack != [] && !r.st.met {
      TopRel(l, r.st, m.st, 1);
      PopRel(l, r.st, m.st, 1);
      if Truthy(Top(r.st, 1)) {
        SimCall(l, body, Pop(r.st, 1), M.Pop(m.st, 1), fuel);
        var r', m' := Call(l.blocks, body, Pop(r.st, 1), fuel), M.Invoke(l.origin[body], M.Pop(m.st, 1), fuel);
        if r'.status.Ran? && fuel > 0 && !r'.st.met {
          SimWhile(l, cond, body, r'.st, m'.st, fuel - 1);
        }
      }
    }
  }

  lemma {:induction false} SimCall(l: Linked, id: nat, s: State, t: M.State, fuel: nat)
    requires id < |l.origin| && RelState(l.origin, s, t)
    ensures Outcome(l, s, Call(l.blocks, id, s, fuel), M.Invoke(l.origin[id], t, fuel))
    decreases fuel, M.Room(t), 1
  {
    Sizes(l, id);
    if t.depth < M.MAX_INVOKE_DEPTH {
      SimBlock(l, id, 0, s.(depth := s.depth + 1), t.(depth := t.depth + 1), fuel);
    }
  }

  // ---- whole programs

  lemma OriginApart(nodes: seq<Node>)
    requires Distinct(nodes)
    ensures Apart(Origin(nodes))
  {
    var q := Quoted(nodes);
    forall i, j | 0 <= i < j < |Origin(nodes)| && Origin(nodes)[i] == Origin(nodes)[j]
      ensures Origin(nodes)[i] == []
    {
      if j < |q| {
        QuotedApart(nodes, i, j);
      } else if q[i] != [] {
        QuotedNotTop(nodes, i, q[i][0]);
      }
    }
  }

  lemma OriginTwinless(nodes: seq<Node>)
    requires Distinct(nodes) && Empties(Quoted(nodes)) <= 1
    ensures Twinless(Origin(nodes))
  {
    var q := Quoted(nodes);
    forall i, j | 0 <= i < j < |Origin(nodes)|
      ensures Origin(nodes)[i] != Origin(nodes)[j]
    {
      if j < |q| {
        NoTwins(nodes, i, j);
      } else if q[i] != [] {
        QuotedNotTop(nodes, i, q[i][0]);
      }
    }
  }

  lemma Simulated(nodes: seq<Node>, fuel: nat)
    requires Distinct(nodes)
    ensures var p := LowerProgram(nodes);
            && p.main < |p.blocks|
            && (Run(p, fuel).st.met || RelResult(Origin(nodes), Run(p, fuel), M.Run(nodes, fuel)))
            && (Safe(Link(p.blocks, Origin(nodes))) ==> !Run(p, fuel).st.met)
  {
    ProgramFrom(nodes);
    OriginApart(nodes);
    var p := LowerProgram(nodes);
    var l: Linked := Link(p.blocks, Origin(nodes));
    Sizes(l, p.main);
    SimBlock(l, p.main, 0, BEGIN, M.BEGIN, fuel);
  }

  /** Every parsed program and what it is lowered to end alike, for every bound on
      its loops, unless the run compares two different empty blocks. */
  lemma LoweringKeepsMeaning(nodes: seq<Node>, fuel: nat)
    requires Distinct(nodes)
    ensures LowerProgram(nodes).main < |LowerProgram(nodes).blocks|
    ensures Run(LowerProgram(nodes), fuel).st.met || RelResult(Origin(nodes), Run(LowerProgram(nodes), fuel), M.Run(nodes, fuel))
  {
    Simulated(nodes, fuel);
  }

  /** A node that compares for equality, at the top or in a quotation. */
  predicate ComparesIn(nodes: seq<Node>) {
    exists i :: 0 <= i < |nodes| && nodes[i].Op? && (nodes[i].sym == "==" || nodes[i].sym == "!=")
  }

  /** What a reader can check before a run: no comparison for equality anywhere, or
      one empty quotation at most. Then the two end alike. */
  lemma KeptByLooking(nodes: seq<Node>, fuel: nat)
    requires Distinct(nodes)
    requires Empties(Quoted(nodes)) <= 1 || forall i :: 0 <= i < |Origin(nodes)| ==> !ComparesIn(Origin(nodes)[i])
    ensures LowerProgram(nodes).main < |LowerProgram(nodes).blocks|
    ensures RelResult(Origin(nodes), Run(LowerProgram(nodes), fuel), M.Run(nodes, fuel))
  {
    var p := LowerProgram(nodes);
    Simulated(nodes, fuel);
    if Empties(Quoted(nodes)) <= 1 {
      OriginTwinless(nodes);
    } else {
      NothingCompared(nodes);
    }
  }

  lemma NothingCompared(nodes: seq<Node>)
    requires forall i :: 0 <= i < |Origin(nodes)| ==> !ComparesIn(Origin(nodes)[i])
    ensures NoCompare(LowerProgram(nodes).blocks)
  {
    var blocks, origin := LowerProgram(nodes).blocks, Origin(nodes);
    ProgramFrom(nodes);
    forall id, k | 0 <= id < |blocks| && 0 <= k < |blocks[id]|
      ensures !Compares(blocks[id][k])
    {
      assert BlockFrom(blocks[id], origin[id], origin, id);
      assert InstrFrom(blocks[id][k], origin[id][k], origin, id);
      assert !ComparesIn(origin[id]);
    }
  }

  /** The exception is real: `[] [] ==` is true of the program, and false of its two
      blocks. */
  const TWO_EMPTY: seq<Node> := [Blk([], 1), Blk([], 2), Op("==", 3)]

  lemma TwoEmptyQuoted()
    ensures Distinct(TWO_EMPTY) && Quoted(TWO_EMPTY) == [[], []] && Empties(Quoted(TWO_EMPTY)) == 2
  {
    var one, two := [Blk([], 1)], [Blk([], 1), Blk([], 2)];
    assert TWO_EMPTY[..2] == two && two[..1] == one && one[..0] == [];
    var a: seq<seq<Node>>, b: seq<seq<Node>> := [[]], [[], []];
    assert Quoted(one) == a && Quoted(two) == b;
    assert b[1..] == a && Empties(a) == 1;
    assert TWO_EMPTY[1..] == [Blk([], 2), Op("==", 3)];
  }

  lemma TwoEmptyLowered()
    ensures LowerProgram(TWO_EMPTY) == Program([[], [], [ConstBlock(0), ConstBlock(1), Oper("==")]], 2)
  {
    var one, two := [Blk([], 1)], [Blk([], 1), Blk([], 2)];
    assert TWO_EMPTY[..2] == two && two[..1] == one && one[..0] == [];
    assert Lower([], 0) == Lower([], 1) == Lowered([], []);
    assert Lower(one, 0) == Lowered([[]], [ConstBlock(0)]);
    assert Lower(two, 0) == Lowered([[], []], [ConstBlock(0), ConstBlock(1)]);
    assert Lower(TWO_EMPTY, 0) == Lowered([[], []], [ConstBlock(0), ConstBlock(1), Oper("==")]);
  }

  lemma TwoEmptyRun(fuel: nat)
    ensures M.Run(TWO_EMPTY, fuel).st.stack == [M.VInt(1)]
  {
    var e := M.VBlk([]);
    var st1, st2 := M.Push(M.BEGIN, e), M.Push(M.Push(M.BEGIN, e), e);
    assert st2.stack == [e, e] && [e, e][..0] == [];
    assert M.Basic("==", [e, e]) == M.Next([M.VInt(1)]);
    assert M.ExecNode(TWO_EMPTY[0], M.BEGIN, fuel).st == st1;
    assert M.ExecNode(TWO_EMPTY[1], st1, fuel).st == st2;
    assert M.ExecOp("==", st2, fuel).st.stack == [M.VInt(1)];
    assert M.ExecNode(TWO_EMPTY[2], st2, fuel).st.stack == [M.VInt(1)];
    assert M.ExecSeq(TWO_EMPTY, 2, st2, fuel).st.stack == [M.VInt(1)];
    assert M.ExecSeq(TWO_EMPTY, 1, st1, fuel).st.stack == [M.VInt(1)];
  }

  lemma TwoEmptyNative(fuel: nat)
    ensures LowerProgram(TWO_EMPTY).main < |LowerProgram(TWO_EMPTY).blocks|
    ensures Run(LowerProgram(TWO_EMPTY), fuel).st.stack == [Plain(M.VInt(0))]
  {
    TwoEmptyLowered();
    var main := [ConstBlock(0), ConstBlock(1), Oper("==")];
    var blocks := [[], [], main];
    var a, b := Func(0, 0), Func(1, 0);
    var st1, st2 := Push(BEGIN, a), Push(Push(BEGIN, a), b);
    assert st2.stack == [a, b] && [a, b][..0] == [];
    assert Basic("==", [a, b]) == Next([Plain(M.VInt(0))]);
    assert RunInstr(blocks, main[0], BEGIN, fuel).st == st1;
    assert RunInstr(blocks, main[1], st1, fuel).st == st2;
    assert RunInstr(blocks, main[2], st2, fuel).st.stack == [Plain(M.VInt(0))];
    assert RunBlock(blocks, main, 2, st2, fuel).st.stack == [Plain(M.VInt(0))];
    assert RunBlock(blocks, main, 1, st1, fuel).st.stack == [Plain(M.VInt(0))];
  }
}
