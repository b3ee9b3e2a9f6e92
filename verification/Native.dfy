// The runtime of compiled programs: it runs the blocks of a table, and a block
// value is a block's number and length. Words and arithmetic are those of the
// stack machine.

module Native {
  import opened Syntax
  import opened Lowering
  import M = Machine

  /** Plain holds a number, a string or a capability. */
  datatype Val = Plain(v: M.Value) | Func(id: nat, nodes: nat) | Res(ok: bool, val: Val)

  /** With what a run can be seen to have done: compared two different empty blocks. */
  datatype State =
    State(stack: seq<Val>, env: map<string, Val>, caps: set<string>, depth: nat, out: seq<Val>, met: bool)

  datatype Result = Result(status: M.Status, st: State)

  // ---- values

  function Truthy(v: Val): bool {
    match v
    case Plain(x) => M.Truthy(x)
    case Func(_, nodes) => nodes != 0
    case Res(ok, _) => ok
  }

  function TypeName(v: Val): string {
    match v
    case Plain(x) => M.TypeName(x)
    case Func(_, _) => "block"
    case Res(_, _) => "res"
  }

  predicate IsNum(v: Val) {
    v.Plain? && M.IsNum(v.v)
  }

  /** Blocks are equal if they are one block. */
  predicate Equal(a: Val, b: Val) {
    match (a, b)
    case (Plain(x), Plain(y)) => M.Equal(x, y)
    case (Func(i, _), Func(j, _)) => i == j
    case (Res(ok, x), Res(ok', y)) => ok == ok' && Equal(x, y)
    case _ => false
  }

  /** Two different empty blocks, or results that hold them. */
  predicate Twins(a: Val, b: Val) {
    match (a, b)
    case (Func(i, n), Func(j, m)) => i != j && n == 0 && m == 0
    case (Res(ok, x), Res(ok', y)) => ok == ok' && Twins(x, y)
    case _ => false
  }

  predicate MeetsTwins(sym: string, stack: seq<Val>) {
    |stack| >= 2 && (sym == "==" || sym == "!=") && Twins(stack[|stack| - 2], stack[|stack| - 1])
  }

  // ---- operators that run no code

  datatype Effect = Next(stack: seq<Val>) | Print(stack: seq<Val>, v: Val) | Err(code: string)

  /** The result of an operator on plain values goes on the stack. */
  function Lift(rest: seq<Val>, e: M.Effect): Effect {
    match e
    case Next(stack) => Next(rest + seq(|stack|, i requires 0 <= i < |stack| => Plain(stack[i])))
    case Print(_, _) => Next(rest)
    case Err(code) => Err(code)
  }

  function Bit(rest: seq<Val>, b: bool): Effect {
    Next(rest + [Plain(M.VInt(if b then 1 else 0))])
  }

  function Compare(sym: string, rest: seq<Val>, a: Val, b: Val): Effect {
    if a.Plain? && b.Plain? then Lift(rest, M.Compare(sym, [], a.v, b.v))
    else if sym == "==" then Bit(rest, Equal(a, b))
    else if sym == "!=" then Bit(rest, !Equal(a, b))
    else Err("TYPE_MISMATCH")
  }

  function Basic(sym: string, stack: seq<Val>): Effect {
    var n := |stack|;
    if n == 0 then Err("STACK_UNDERFLOW")
    else
      var b, rest := stack[n - 1], stack[..n - 1];
      if sym == "=" then Next(stack + [b])
      else if sym == "," then Next(rest)
      else if sym == "." then Print(rest, b)
      else if sym == "!" then Bit(rest, !Truthy(b))
      else if sym == "_" then
        if b.Plain? then Lift(rest, M.Basic("_", [b.v])) else Err("TYPE_MISMATCH")
      else if sym in M.ARITH && !IsNum(b) then Err("TYPE_MISMATCH")
      else if n == 1 then Err("STACK_UNDERFLOW")
      else
        var a, rest2 := stack[n - 2], stack[..n - 2];
        if sym in M.ARITH then
          if IsNum(a) then Lift(rest2, M.Arith(sym, [], a.v, b.v)) else Err("TYPE_MISMATCH")
        else if sym in M.COMPARE then Compare(sym, rest2, a, b)
        else if sym == "&&" then Bit(rest2, Truthy(a) && Truthy(b))
        else if sym == "||" then Bit(rest2, Truthy(a) || Truthy(b))
        else if sym == "\\" then Next(rest2 + [b, a])
        else if sym == "&" then Next(stack + [a])
        else Err("UNSUPPORTED")
  }

  // ---- pattern arms

  datatype Choice = Chosen(body: nat, value: Val) | Refused(code: string)

  /** The shape of a block, empty for a number that has none. */
  function Shape(blocks: seq<Block>, id: nat): Block {
    if id < |blocks| then blocks[id] else []
  }

  function Choose(blocks: seq<Block>, arms: Block, i: nat, subject: Val): Choice
    requires |arms| % 2 == 0 && i % 2 == 0
    decreases |arms| - i
  {
    if i >= |arms| then Refused("NO_MATCH")
    else if !arms[i].ConstBlock? || !arms[i + 1].ConstBlock? then Refused("BAD_PATTERN")
    else
      var pat, body := Shape(blocks, arms[i].id), arms[i + 1].id;
      if |pat| != 1 then Refused("BAD_PATTERN")
      else
        match pat[0]
        case ConstInt(n) =>
          if Equal(subject, Plain(M.VInt(n))) then Chosen(body, subject) else Choose(blocks, arms, i + 2, subject)
        case ConstFloat(x) =>
          if Equal(subject, Plain(M.VFlt(x))) then Chosen(body, subject) else Choose(blocks, arms, i + 2, subject)
        case ConstStr(s) =>
          if Equal(subject, Plain(M.VStr(s))) then Chosen(body, subject) else Choose(blocks, arms, i + 2, subject)
        case Load(name) =>
          if name == "any" then Chosen(body, subject)
          else if name == "ok" || name == "err" then
            if subject.Res? && subject.ok == (name == "ok") then Chosen(body, subject.val)
            else Choose(blocks, arms, i + 2, subject)
          else if name in M.PATTERN_TYPES then
            if TypeName(subject) == name then Chosen(body, subject) else Choose(blocks, arms, i + 2, subject)
          else Refused("BAD_PATTERN")
        case _ => Refused("BAD_PATTERN")
  }

  // ---- running blocks

  function Fail(code: string, st: State): Result {
    Result(M.Raised(code), st)
  }

  function Ok(st: State): Result {
    Result(M.Ran, st)
  }

  ghost predicate Restores(r: Result, st: State) {
    r.st.depth == st.depth && (st.met ==> r.st.met)
  }

  function Room(st: State): nat {
    if st.depth < M.MAX_INVOKE_DEPTH then M.MAX_INVOKE_DEPTH - st.depth else 0
  }

  function Push(st: State, v: Val): State {
    st.(stack := st.stack + [v])
  }

  function Top(st: State, k: nat): Val
    requires 1 <= k <= |st.stack|
  {
    st.stack[|st.stack| - k]
  }

  function Pop(st: State, k: nat): State
    requires k <= |st.stack|
  {
    st.(stack := st.stack[..|st.stack| - k])
  }

  predicate HasFunc(st: State, k: nat)
    requires k >= 1
  {
    |st.stack| >= k && Top(st, k).Func?
  }

  function NoFunc(st: State, k: nat): string
    requires k >= 1 && !HasFunc(st, k)
  {
    if |st.stack| < k then "STACK_UNDERFLOW" else "NOT_CALLABLE"
  }

  predicate HasCap(st: State, k: nat)
    requires 1 <= k <= |st.stack|
  {
    Top(st, k).Plain? && Top(st, k).v.VCap?
  }

  function RunBlock(blocks: seq<Block>, code: Block, k: nat, st: State, fuel: nat): (r: Result)
    requires k <= |code|
    ensures Restores(r, st)
    decreases fuel, Room(st), |code| - k + 5
  {
    if k == |code| then Ok(st)
    else
      var r := RunInstr(blocks, code[k], st, fuel);
      if r.status.Ran? then RunBlock(blocks, code, k + 1, r.st, fuel) else r
  }

  function RunInstr(blocks: seq<Block>, c: Instr, st: State, fuel: nat): (r: Result)
    ensures Restores(r, st)
    decreases fuel, Room(st), 4
  {
    match c
    case ConstInt(i) => Ok(Push(st, Plain(M.VInt(i))))
    case ConstFloat(x) => Ok(Push(st, Plain(M.VFlt(x))))
    case ConstStr(s) => Ok(Push(st, Plain(M.VStr(s))))
    case ConstBlock(id) => Ok(Push(st, Func(id, |Shape(blocks, id)|)))
    case ConstCap(s) => Ok(Push(st, Plain(M.VCap(s))))
    case Store(x) =>
      if st.stack == [] then Fail("STACK_UNDERFLOW", st)
      else Ok(Pop(st, 1).(env := st.env[x := Top(st, 1)]))
    case Take(x) =>
      if x in st.env then Ok(Push(st.(env := st.env - {x}), st.env[x]))
      else Fail("NAME_UNRESOLVED", st)
    case Load(x) =>
      if x in st.env then Ok(Push(st, st.env[x]))
      else if x in M.BUILTINS then RunWord(blocks, x, st, fuel)
      else Fail("NAME_UNRESOLVED", st)
    case Attempt =>
      if "ty" in st.env then Ok(Push(st, st.env["ty"])) else RunWord(blocks, "ty", st, fuel)
    case Select =>
      if !HasFunc(st, 1) then Fail(NoFunc(st, 1), st)
      else if !HasFunc(st, 2) then Fail(NoFunc(st, 2), st)
      else if |st.stack| < 3 then Fail("STACK_UNDERFLOW", st)
      else Ok(Push(Pop(st, 3), if Truthy(Top(st, 3)) then Top(st, 2) else Top(st, 1)))
    case Invoke =>
      if !HasFunc(st, 1) then Fail(NoFunc(st, 1), st)
      else Call(blocks, Top(st, 1).id, Pop(st, 1), fuel)
    case Loop =>
      if !HasFunc(st, 1) then Fail(NoFunc(st, 1), st)
      else if !HasFunc(st, 2) then Fail(NoFunc(st, 2), st)
      else While(blocks, Top(st, 2).id, Top(st, 1).id, Pop(st, 2), fuel)
    case Match =>
      if !HasFunc(st, 1) then Fail(NoFunc(st, 1), st)
      else if |st.stack| < 2 then Fail("STACK_UNDERFLOW", st)
      else RunMatch(blocks, Shape(blocks, Top(st, 1).id), Top(st, 2), Pop(st, 2), fuel)
    case Oper(sym) => RunBasic(sym, st.(met := st.met || MeetsTwins(sym, st.stack)))
  }

  function RunBasic(sym: string, st: State): (r: Result)
    ensures Restores(r, st)
  {
    match Basic(sym, st.stack)
    case Next(stack) => Ok(st.(stack := stack))
    case Print(stack, v) => Ok(st.(stack := stack, out := st.out + [v]))
    case Err(code) => Fail(code, st)
  }

  function RunWord(blocks: seq<Block>, x: string, st: State, fuel: nat): (r: Result)
    requires x in M.BUILTINS
    ensures Restores(r, st)
    decreases fuel, Room(st), 3
  {
    if x == "gr" then
      if !HasFunc(st, 1) then Fail(NoFunc(st, 1), st)
      else if |st.stack| < 2 then Fail("STACK_UNDERFLOW", st)
      else if !HasCap(st, 2) then Fail("TYPE_MISMATCH", st)
      else Grant(blocks, Top(st, 2).v.cap, Top(st, 1).id, Pop(st, 2), fuel)
    else if x == "ty" then
      if !HasFunc(st, 1) then Fail(NoFunc(st, 1), st)
      else Try(blocks, Top(st, 1).id, Pop(st, 1), fuel)
    else if st.stack == [] then Fail("STACK_UNDERFLOW", st)
    else if !HasCap(st, 1) then Fail("TYPE_MISMATCH", st)
    else if x == "rq" then
      if Top(st, 1).v.cap in st.caps then Ok(Pop(st, 1)) else Fail("CAP_DENIED", st)
    else
      Ok(Push(Pop(st, 1), Plain(M.VInt(if Top(st, 1).v.cap in st.caps then 1 else 0))))
  }

  function Grant(blocks: seq<Block>, cap: string, body: nat, st: State, fuel: nat): (r: Result)
    ensures Restores(r, st)
    decreases fuel, Room(st), 2
  {
    var added := cap !in st.caps;
    var r := Call(blocks, body, st.(caps := st.caps + {cap}), fuel);
    r.(st := r.st.(caps := if added then r.st.caps - {cap} else r.st.caps))
  }

  function Try(blocks: seq<Block>, body: nat, st: State, fuel: nat): (r: Result)
    ensures Restores(r, st)
    decreases fuel, Room(st), 2
  {
    var r := Call(blocks, body, st.(stack := []), fuel);
    match r.status
    case Raised(code) => Ok(Push(r.st.(stack := st.stack), Res(false, Plain(M.VStr(code)))))
    case Spent => r
    case Ran =>
      if |r.st.stack| != 1 then Fail("BOUNDS", r.st.(stack := st.stack))
      else Ok(Push(r.st.(stack := st.stack), Res(true, r.st.stack[0])))
  }

  function RunMatch(blocks: seq<Block>, arms: Block, subject: Val, st: State, fuel: nat): (r: Result)
    ensures Restores(r, st)
    decreases fuel, Room(st), 2
  {
    if |arms| % 2 != 0 then Fail("BAD_PATTERN", st)
    else
      match Choose(blocks, arms, 0, subject)
      case Refused(code) => Fail(code, st)
      case Chosen(body, value) => Call(blocks, body, Push(st, value), fuel)
  }

  function While(blocks: seq<Block>, cond: nat, body: nat, st: State, fuel: nat): (r: Result)
    ensures Restores(r, st)
    decreases fuel, Room(st), 2
  {
    var r := Call(blocks, cond, st, fuel);
    if !r.status.Ran? then r
    else if r.st.stack == [] then Fail("STACK_UNDERFLOW", r.st)
    else if !Truthy(Top(r.st, 1)) then Ok(Pop(r.st, 1))
    else
      var s := Call(blocks, body, Pop(r.st, 1), fuel);
      if !s.status.Ran? then s
      else if fuel == 0 then s.(status := M.Spent)
      else While(blocks, cond, body, s.st, fuel - 1)
  }

  function Call(blocks: seq<Block>, id: nat, st: State, fuel: nat): (r: Result)
    ensures Restores(r, st)
    decreases fuel, Room(st), 1
  {
    if st.depth >= M.MAX_INVOKE_DEPTH then Fail("STACK_OVERFLOW", st)
    else if id >= |blocks| then Fail("UNSUPPORTED", st)
    else
      var r := RunBlock(blocks, blocks[id], 0, st.(depth := st.depth + 1), fuel);
      r.(st := r.st.(depth := st.depth))
  }

  const BEGIN: State := State([], map[], {}, 0, [], false)

  function Run(p: Program, fuel: nat): Result
    requires p.main < |p.blocks|
  {
    RunBlock(p.blocks, p.blocks[p.main], 0, BEGIN, fuel)
  }
}
