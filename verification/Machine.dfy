// The stack machine of zown/vm.py and zown/builtins.py on the safety core: the
// operators, bindings and moves, and the words gr, rq, hv and ty. A run is a
// function of the program, the state and the fuel that `;` may spend.

module Machine {
  import opened Syntax

  const MAX_INVOKE_DEPTH: nat := 128
  const INT_MIN: int := -0x8000_0000_0000_0000
  const INT_MAX: int := 0x7fff_ffff_ffff_ffff

  const BUILTINS: set<string> := {"gr", "rq", "hv", "ty"}

  datatype Value =
    | VInt(i: int)
    | VFlt(x: real)
    | VStr(s: string)
    | VBlk(nodes: seq<Node>)
    | VCap(cap: string)
    | VRes(ok: bool, val: Value)

  type Env = map<string, Value>

  datatype State = State(stack: seq<Value>, env: Env, caps: set<string>, depth: nat, out: seq<Value>)

  /** What a run can be seen to do at a node: start it, finish it, or leave it
      by a fault, and the authority it started with. At a match also: refuse the
      value itself, where other faults come out of the arm that runs. */
  datatype Event =
    | Enter(pos: nat, caps: set<string>)
    | Leave(pos: nat)
    | Raise(pos: nat, code: string)
    | Refuse(pos: nat, code: string)

  /** Spent: the fuel of some `;` ran out. The stack of a fault is not kept:
      `ty` restores its own and nothing else survives one. */
  datatype Status = Ran | Raised(code: string) | Spent

  datatype Result = Result(status: Status, st: State, seen: set<Event>)

  // ---- values

  function Truthy(v: Value): bool {
    match v
    case VInt(i) => i != 0
    case VFlt(x) => x != 0.0
    case VStr(s) => |s| > 0
    case VBlk(nodes) => |nodes| > 0
    case VCap(_) => true
    case VRes(ok, _) => ok
  }

  function TypeName(v: Value): string {
    match v
    case VInt(_) => "int"
    case VFlt(_) => "float"
    case VStr(_) => "str"
    case VBlk(_) => "block"
    case VCap(_) => "cap"
    case VRes(_, _) => "res"
  }

  predicate IsNum(v: Value) {
    v.VInt? || v.VFlt?
  }

  function AsReal(v: Value): real
    requires IsNum(v)
  {
    if v.VInt? then v.i as real else v.x
  }

  predicate FitsInt(n: int) {
    INT_MIN <= n <= INT_MAX
  }

  predicate Equal(a: Value, b: Value) {
    if IsNum(a) && IsNum(b) then AsReal(a) == AsReal(b)
    else if a.VRes? && b.VRes? then a.ok == b.ok && Equal(a.val, b.val)
    else a == b
  }

  predicate StrLess(s: string, t: string) {
    if t == "" then false
    else if s == "" then true
    else s[0] < t[0] || (s[0] == t[0] && StrLess(s[1..], t[1..]))
  }

  // ---- operators that run no code

  const ARITH: set<string> := {"+", "-", "*", "/", "%"}
  const COMPARE: set<string> := {"==", "!=", "<", ">", "<=", ">="}

  datatype Effect = Next(stack: seq<Value>) | Print(stack: seq<Value>, v: Value) | Err(code: string)

  function IntResult(rest: seq<Value>, n: int): Effect {
    if FitsInt(n) then Next(rest + [VInt(n)]) else Err("OVERFLOW")
  }

  function FloorDiv(a: int, b: int): int
    requires b != 0
  {
    if b > 0 then a / b else (-a) / (-b)
  }

  function Product(x: real, y: real): real {
    x * y
  }

  function Modulus(x: real, y: real): real
    requires y != 0.0
  {
    x - y * ((x / y).Floor as real)
  }

  function Arith(sym: string, rest: seq<Value>, a: Value, b: Value): Effect
    requires IsNum(a) && IsNum(b) && sym in ARITH
  {
    var x, y := AsReal(a), AsReal(b);
    if (sym == "/" || sym == "%") && y == 0.0 then Err("DIV_ZERO")
    else if a.VInt? && b.VInt? then
      if sym == "+" then IntResult(rest, a.i + b.i)
      else if sym == "-" then IntResult(rest, a.i - b.i)
      else if sym == "*" then IntResult(rest, a.i * b.i)
      else
        var q := FloorDiv(a.i, b.i);
        if sym == "%" then IntResult(rest, a.i - b.i * q)
        else if a.i == b.i * q then IntResult(rest, q)
        else Next(rest + [VFlt(x / y)])
    else if sym == "+" then Next(rest + [VFlt(x + y)])
    else if sym == "-" then Next(rest + [VFlt(x - y)])
    else if sym == "*" then Next(rest + [VFlt(Product(x, y))])
    else if sym == "%" then Next(rest + [VFlt(Modulus(x, y))])
    else
      var f := (x / y).Floor;
      Next(rest + [if f as real == x / y && FitsInt(f) then VInt(f) else VFlt(x / y)])
  }

  function Bit(rest: seq<Value>, b: bool): Effect {
    Next(rest + [VInt(if b then 1 else 0)])
  }

  function Compare(sym: string, rest: seq<Value>, a: Value, b: Value): Effect {
    if sym == "==" then Bit(rest, Equal(a, b))
    else if sym == "!=" then Bit(rest, !Equal(a, b))
    else if IsNum(a) && IsNum(b) then
      var x, y := AsReal(a), AsReal(b);
      Bit(rest, if sym == "<" then x < y else if sym == ">" then x > y else if sym == "<=" then x <= y else x >= y)
    else if a.VStr? && b.VStr? then
      var s, t := a.s, b.s;
      Bit(rest, if sym == "<" then StrLess(s, t) else if sym == ">" then StrLess(t, s)
                else if sym == "<=" then !StrLess(t, s) else !StrLess(s, t))
    else Err("TYPE_MISMATCH")
  }

  /** An operator that runs no code and moves no block on its own: everything
      but @ ? ; and ??. */
  function Basic(sym: string, stack: seq<Value>): Effect {
    var n := |stack|;
    if n == 0 then Err("STACK_UNDERFLOW")
    else
      var b, rest := stack[n - 1], stack[..n - 1];
      if sym == "=" then Next(stack + [b])
      else if sym == "," then Next(rest)
      else if sym == "." then Print(rest, b)
      else if sym == "!" then Bit(rest, !Truthy(b))
      else if sym == "_" then
        if b.VInt? then IntResult(rest, -b.i)
        else if b.VFlt? then Next(rest + [VFlt(-b.x)])
        else Err("TYPE_MISMATCH")
      else if sym in ARITH && !IsNum(b) then Err("TYPE_MISMATCH")
      else if n == 1 then Err("STACK_UNDERFLOW")
      else
        var a, rest2 := stack[n - 2], stack[..n - 2];
        if sym in ARITH then
          if IsNum(a) then Arith(sym, rest2, a, b) else Err("TYPE_MISMATCH")
        else if sym in COMPARE then Compare(sym, rest2, a, b)
        else if sym == "&&" then Bit(rest2, Truthy(a) && Truthy(b))
        else if sym == "||" then Bit(rest2, Truthy(a) || Truthy(b))
        else if sym == "\\" then Next(rest2 + [b, a])
        else if sym == "&" then Next(stack + [a])
        else Err("UNSUPPORTED")
  }

  // ---- pattern arms: read from the program, never run

  const PATTERN_TYPES: set<string> := {
    "int", "float", "str", "block", "cap", "width", "vec", "big", "res",
    "color", "node", "cur", "buf", "stm", "dc", "cx",
    "ls", "mp", "sc", "qu", "rg", "te", "ti", "bm", "pq", "bv"}

  datatype Choice = Chosen(body: seq<Node>, value: Value) | Refused(code: string)

  function LiteralValue(n: Node): Value
    requires n.Int? || n.Flt? || n.Str?
  {
    match n
    case Int(i, _) => VInt(i)
    case Flt(x, _) => VFlt(x)
    case Str(s, _) => VStr(s)
  }

  /** The first arm from index i on whose pattern matches. */
  function Choose(arms: seq<Node>, i: nat, subject: Value): (r: Choice)
    requires |arms| % 2 == 0 && i % 2 == 0
    decreases |arms| - i
  {
    if i >= |arms| then Refused("NO_MATCH")
    else if !arms[i].Blk? || !arms[i + 1].Blk? then Refused("BAD_PATTERN")
    else
      var pat, body := arms[i].nodes, arms[i + 1].nodes;
      if |pat| != 1 then Refused("BAD_PATTERN")
      else
        var n := pat[0];
        if n.Name? && n.name == "any" then Chosen(body, subject)
        else if n.Int? || n.Flt? || n.Str? then
          if Equal(subject, LiteralValue(n)) then Chosen(body, subject) else Choose(arms, i + 2, subject)
        else if n.Name? && (n.name == "ok" || n.name == "err") then
          if subject.VRes? && subject.ok == (n.name == "ok") then Chosen(body, subject.val)
          else Choose(arms, i + 2, subject)
        else if n.Name? && n.name in PATTERN_TYPES then
          if TypeName(subject) == n.name then Chosen(body, subject) else Choose(arms, i + 2, subject)
        else Refused("BAD_PATTERN")
  }

  // ---- running code

  function Fail(code: string, st: State): Result {
    Result(Raised(code), st, {})
  }

  function Ok(st: State): Result {
    Result(Ran, st, {})
  }

  function Then(seen: set<Event>, r: Result): Result {
    r.(seen := seen + r.seen)
  }

  /** Every way out leaves the authority and the depth as they were. */
  ghost predicate Restores(r: Result, st: State) {
    r.st.caps == st.caps && r.st.depth == st.depth
  }

  function Room(st: State): nat {
    if st.depth < MAX_INVOKE_DEPTH then MAX_INVOKE_DEPTH - st.depth else 0
  }

  function ExecSeq(nodes: seq<Node>, i: nat, st: State, fuel: nat): (r: Result)
    requires i <= |nodes|
    ensures Restores(r, st)
    decreases fuel, Room(st), |nodes| - i + 5
  {
    if i == |nodes| then Ok(st)
    else
      var r := ExecNode(nodes[i], st, fuel);
      if r.status.Ran? then Then(r.seen, ExecSeq(nodes, i + 1, r.st, fuel)) else r
  }

  function ExecNode(n: Node, st: State, fuel: nat): (r: Result)
    ensures Restores(r, st)
    decreases fuel, Room(st), 5
  {
    var r := Exec(n, st, fuel);
    var end := match r.status
      case Ran => {Leave(n.pos)}
      case Raised(code) => {Raise(n.pos, code)}
      case Spent => {};
    r.(seen := {Enter(n.pos, st.caps)} + Refusal(n, st) + r.seen + end)
  }

  /** A match that finds no arm for its value, or arms that are malformed. */
  function Refusal(n: Node, st: State): set<Event> {
    if n.Op? && n.sym == "??" && HasBlock(st, 1) && |st.stack| >= 2 then
      var arms := Top(st, 1).nodes;
      if |arms| % 2 != 0 then {Refuse(n.pos, "BAD_PATTERN")}
      else
        match Choose(arms, 0, Top(st, 2))
        case Refused(code) => {Refuse(n.pos, code)}
        case Chosen(_, _) => {}
    else {}
  }

  function Exec(n: Node, st: State, fuel: nat): (r: Result)
    ensures Restores(r, st)
    decreases fuel, Room(st), 4
  {
    match n
    case Int(_, _) => Ok(Push(st, LiteralValue(n)))
    case Flt(_, _) => Ok(Push(st, LiteralValue(n)))
    case Str(_, _) => Ok(Push(st, LiteralValue(n)))
    case Blk(nodes, _) => Ok(Push(st, VBlk(nodes)))
    case Cap(c, _) => Ok(Push(st, VCap(c)))
    case Bind(x, _) =>
      if st.stack == [] then Fail("STACK_UNDERFLOW", st)
      else Ok(Pop(st, 1).(env := st.env[x := Top(st, 1)]))
    case Move(x, _) =>
      if x in st.env then Ok(Push(st.(env := st.env - {x}), st.env[x]))
      else Fail("NAME_UNRESOLVED", st)
    case Name(x, _) =>
      if x in st.env then Ok(Push(st, st.env[x]))
      else if x in BUILTINS then ExecWord(x, st, fuel)
      else Fail("NAME_UNRESOLVED", st)
    case Op(sym, _) => ExecOp(sym, st, fuel)
  }

  function Push(st: State, v: Value): State {
    st.(stack := st.stack + [v])
  }

  function Top(st: State, k: nat): Value
    requires 1 <= k <= |st.stack|
  {
    st.stack[|st.stack| - k]
  }

  function Pop(st: State, k: nat): State
    requires k <= |st.stack|
  {
    st.(stack := st.stack[..|st.stack| - k])
  }

  predicate HasBlock(st: State, k: nat)
    requires k >= 1
  {
    |st.stack| >= k && Top(st, k).VBlk?
  }

  /** The fault when the k-th value from the top should have been a block. */
  function NoBlock(st: State, k: nat): string
    requires k >= 1 && !HasBlock(st, k)
  {
    if |st.stack| < k then "STACK_UNDERFLOW" else "NOT_CALLABLE"
  }

  function ExecWord(x: string, st: State, fuel: nat): (r: Result)
    requires x in BUILTINS
    ensures Restores(r, st)
    decreases fuel, Room(st), 3
  {
    if x == "gr" then
      if !HasBlock(st, 1) then Fail(NoBlock(st, 1), st)
      else if |st.stack| < 2 then Fail("STACK_UNDERFLOW", st)
      else if !Top(st, 2).VCap? then Fail("TYPE_MISMATCH", st)
      else ExecGrant(Top(st, 2).cap, Top(st, 1).nodes, Pop(st, 2), fuel)
    else if x == "ty" then
      if !HasBlock(st, 1) then Fail(NoBlock(st, 1), st)
      else ExecTry(Top(st, 1).nodes, Pop(st, 1), fuel)
    else if st.stack == [] then Fail("STACK_UNDERFLOW", st)
    else if !Top(st, 1).VCap? then Fail("TYPE_MISMATCH", st)
    else if x == "rq" then
      if Top(st, 1).cap in st.caps then Ok(Pop(st, 1)) else Fail("CAP_DENIED", st)
    else
      Ok(Push(Pop(st, 1), VInt(if Top(st, 1).cap in st.caps then 1 else 0)))
  }

  /** Runs a block with one more capability; what was held before is restored. */
  function ExecGrant(cap: string, body: seq<Node>, st: State, fuel: nat): (r: Result)
    ensures Restores(r, st)
    decreases fuel, Room(st), 2
  {
    var had := cap in st.caps;
    var r := Invoke(body, st.(caps := st.caps + {cap}), fuel);
    r.(st := r.st.(caps := if had then r.st.caps else r.st.caps - {cap}))
  }

  /** Runs a block on a stack of its own and wraps how it ended. */
  function ExecTry(body: seq<Node>, st: State, fuel: nat): (r: Result)
    ensures Restores(r, st)
    decreases fuel, Room(st), 2
  {
    var r := Invoke(body, st.(stack := []), fuel);
    match r.status
    case Raised(code) =>
      Result(Ran, Push(r.st.(stack := st.stack), VRes(false, VStr(code))), r.seen)
    case Spent => r
    case Ran =>
      if |r.st.stack| != 1 then Result(Raised("BOUNDS"), r.st.(stack := st.stack), r.seen)
      else Result(Ran, Push(r.st.(stack := st.stack), VRes(true, r.st.stack[0])), r.seen)
  }

  function ExecOp(sym: string, st: State, fuel: nat): (r: Result)
    ensures Restores(r, st)
    decreases fuel, Room(st), 3
  {
    if sym == "@" then
      if !HasBlock(st, 1) then Fail(NoBlock(st, 1), st)
      else Invoke(Top(st, 1).nodes, Pop(st, 1), fuel)
    else if sym == "?" then
      if !HasBlock(st, 1) then Fail(NoBlock(st, 1), st)
      else if !HasBlock(st, 2) then Fail(NoBlock(st, 2), st)
      else if |st.stack| < 3 then Fail("STACK_UNDERFLOW", st)
      else Ok(Push(Pop(st, 3), if Truthy(Top(st, 3)) then Top(st, 2) else Top(st, 1)))
    else if sym == ";" then
      if !HasBlock(st, 1) then Fail(NoBlock(st, 1), st)
      else if !HasBlock(st, 2) then Fail(NoBlock(st, 2), st)
      else While(Top(st, 2).nodes, Top(st, 1).nodes, Pop(st, 2), fuel)
    else if sym == "??" then
      if !HasBlock(st, 1) then Fail(NoBlock(st, 1), st)
      else if |st.stack| < 2 then Fail("STACK_UNDERFLOW", st)
      else ExecMatch(Top(st, 1).nodes, Top(st, 2), Pop(st, 2), fuel)
    else
      match Basic(sym, st.stack)
      case Next(stack) => Ok(st.(stack := stack))
      case Print(stack, v) => Ok(st.(stack := stack, out := st.out + [v]))
      case Err(code) => Fail(code, st)
  }

  function ExecMatch(arms: seq<Node>, subject: Value, st: State, fuel: nat): (r: Result)
    ensures Restores(r, st)
    decreases fuel, Room(st), 2
  {
    if |arms| % 2 != 0 then Fail("BAD_PATTERN", st)
    else
      match Choose(arms, 0, subject)
      case Refused(code) => Fail(code, st)
      case Chosen(body, value) => Invoke(body, Push(st, value), fuel)
  }

  function While(cond: seq<Node>, body: seq<Node>, st: State, fuel: nat): (r: Result)
    ensures Restores(r, st)
    decreases fuel, Room(st), 2
  {
    var r := Invoke(cond, st, fuel);
    if !r.status.Ran? then r
    else if r.st.stack == [] then Result(Raised("STACK_UNDERFLOW"), r.st, r.seen)
    else if !Truthy(Top(r.st, 1)) then Result(Ran, Pop(r.st, 1), r.seen)
    else
      var s := Invoke(body, Pop(r.st, 1), fuel);
      if !s.status.Ran? then Then(r.seen, s)
      else if fuel == 0 then Then(r.seen, s.(status := Spent))
      else Then(r.seen, Then(s.seen, While(cond, body, s.st, fuel - 1)))
  }

  function Invoke(body: seq<Node>, st: State, fuel: nat): (r: Result)
    ensures Restores(r, st)
    decreases fuel, Room(st), 1
  {
    if st.depth >= MAX_INVOKE_DEPTH then Fail("STACK_OVERFLOW", st)
    else
      var r := ExecSeq(body, 0, st.(depth := st.depth + 1), fuel);
      r.(st := r.st.(depth := st.depth))
  }

  const BEGIN: State := State([], map[], {}, 0, [])

  function Run(program: seq<Node>, fuel: nat): Result {
    ExecSeq(program, 0, BEGIN, fuel)
  }
}
