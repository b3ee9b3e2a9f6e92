// What the operators compute, said of runs of small programs: what two of them
// undo, what a quotient and a remainder are, which comparisons exclude each other.
// Positions, the rest of the stack and the fuel are arbitrary.

module OperatorLaws {
  import opened Syntax
  import opened Machine

  /** A token: an integer, a float, a string, an operator or a name. */
  datatype Tok = N(i: int) | R(x: real) | S(s: string) | O(sym: string)

  predicate IsTok(n: Node, t: Tok) {
    match t
    case N(i) => n.Int? && n.i == i
    case R(x) => n.Flt? && n.x == x
    case S(s) => n.Str? && n.s == s
    case O(sym) => n.Op? && n.sym == sym
  }

  /** A program of these tokens. */
  predicate Reads(p: seq<Node>, toks: seq<Tok>) {
    |p| == |toks| && forall i :: 0 <= i < |p| ==> IsTok(p[i], toks[i])
  }

  /** The run leaves these values on the stack and everything else as it was. */
  ghost predicate Leaves(p: seq<Node>, st: State, fuel: nat, vs: seq<Value>) {
    var r := ExecSeq(p, 0, st, fuel);
    r.status == Ran && r.st == st.(stack := st.stack + vs)
  }

  ghost predicate Faults(p: seq<Node>, st: State, fuel: nat, code: string) {
    ExecSeq(p, 0, st, fuel).status == Raised(code)
  }

  // ---- single steps

  /** The run from node i on, in a state with this stack, does what the whole one does. */
  ghost predicate Reached(p: seq<Node>, st: State, fuel: nat, i: nat, stack: seq<Value>) {
    i <= |p|
    && ExecSeq(p, 0, st, fuel).status == ExecSeq(p, i, st.(stack := stack), fuel).status
    && ExecSeq(p, 0, st, fuel).st == ExecSeq(p, i, st.(stack := stack), fuel).st
  }

  lemma Begin(p: seq<Node>, st: State, fuel: nat)
    ensures Reached(p, st, fuel, 0, st.stack)
  {
    assert st.(stack := st.stack) == st;
  }

  lemma Step(p: seq<Node>, i: nat, s: State, fuel: nat, s': State)
    requires i < |p| && Exec(p[i], s, fuel) == Ok(s')
    ensures ExecSeq(p, i, s, fuel).status == ExecSeq(p, i + 1, s', fuel).status
    ensures ExecSeq(p, i, s, fuel).st == ExecSeq(p, i + 1, s', fuel).st
  {
  }

  lemma Stops(p: seq<Node>, i: nat, s: State, fuel: nat, code: string)
    requires i < |p| && Exec(p[i], s, fuel) == Fail(code, s)
    ensures ExecSeq(p, i, s, fuel).status == Raised(code)
  {
  }

  lemma Literal(p: seq<Node>, st: State, fuel: nat, i: nat, stack: seq<Value>, t: Tok)
    requires Reached(p, st, fuel, i, stack) && i < |p| && IsTok(p[i], t) && !t.O?
    ensures var v := match t case N(n) => VInt(n) case R(x) => VFlt(x) case S(s) => VStr(s) case O(_) => VInt(0);
      Reached(p, st, fuel, i + 1, stack + [v])
  {
    var s, v := st.(stack := stack), LiteralValue(p[i]);
    assert Exec(p[i], s, fuel) == Ok(Push(s, v));
    assert Push(s, v) == st.(stack := stack + [v]);
    Step(p, i, s, fuel, Push(s, v));
  }

  lemma Operate(p: seq<Node>, st: State, fuel: nat, i: nat, stack: seq<Value>, sym: string, next: seq<Value>)
    requires Reached(p, st, fuel, i, stack) && i < |p| && IsTok(p[i], O(sym)) && sym !in {"@", "?", ";", "??"}
    requires Basic(sym, stack) == Next(next)
    ensures Reached(p, st, fuel, i + 1, next)
  {
    var s := st.(stack := stack);
    assert Exec(p[i], s, fuel) == ExecOp(sym, s, fuel) == Ok(s.(stack := next));
    assert s.(stack := next) == st.(stack := next);
    Step(p, i, s, fuel, st.(stack := next));
  }

  lemma FaultAt(p: seq<Node>, st: State, fuel: nat, i: nat, stack: seq<Value>, sym: string, code: string)
    requires Reached(p, st, fuel, i, stack) && i < |p| && IsTok(p[i], O(sym)) && sym !in {"@", "?", ";", "??"}
    requires Basic(sym, stack) == Err(code)
    ensures Faults(p, st, fuel, code)
  {
    var s := st.(stack := stack);
    assert Exec(p[i], s, fuel) == ExecOp(sym, s, fuel) == Fail(code, s);
    Stops(p, i, s, fuel, code);
  }

  lemma Finish(p: seq<Node>, st: State, fuel: nat, vs: seq<Value>)
    requires Reached(p, st, fuel, |p|, st.stack + vs)
    ensures Leaves(p, st, fuel, vs)
  {
  }

  /** Two literals on the stack. */
  lemma Two(p: seq<Node>, st: State, fuel: nat, a: int, b: int)
    requires |p| >= 2 && IsTok(p[0], N(a)) && IsTok(p[1], N(b))
    ensures Reached(p, st, fuel, 2, st.stack + [VInt(a), VInt(b)])
  {
    Begin(p, st, fuel);
    Literal(p, st, fuel, 0, st.stack, N(a));
    Literal(p, st, fuel, 1, st.stack + [VInt(a)], N(b));
    assert st.stack + [VInt(a)] + [VInt(b)] == st.stack + [VInt(a), VInt(b)];
  }

  lemma Split(rest: seq<Value>, a: Value, b: Value)
    ensures var s := rest + [a, b];
      s[|s| - 1] == b && s[|s| - 2] == a && s[..|s| - 2] == rest && s[..|s| - 1] == rest + [a]
  {
  }

  /** Two integers under an operator: what comes of them as a number. */
  lemma IntBasic(sym: string, rest: seq<Value>, a: int, b: int)
    requires sym in ARITH
    ensures Basic(sym, rest + [VInt(a), VInt(b)]) == Arith(sym, rest, VInt(a), VInt(b))
  {
    Split(rest, VInt(a), VInt(b));
  }

  lemma CompareBasic(sym: string, rest: seq<Value>, a: Value, b: Value)
    requires sym in COMPARE
    ensures Basic(sym, rest + [a, b]) == Compare(sym, rest, a, b)
  {
    Split(rest, a, b);
  }

  // ---- integers

  /** The mathematical result, which has to fit 64 bits. */
  function Meant(sym: string, a: int, b: int): int {
    if sym == "+" then a + b else if sym == "-" then a - b else a * b
  }

  lemma Computes(p: seq<Node>, st: State, fuel: nat, a: int, b: int, sym: string)
    requires sym in {"+", "-", "*"} && Reads(p, [N(a), N(b), O(sym)])
    ensures if FitsInt(Meant(sym, a, b)) then Leaves(p, st, fuel, [VInt(Meant(sym, a, b))]) else Faults(p, st, fuel, "OVERFLOW")
  {
    var s := st.stack + [VInt(a), VInt(b)];
    Two(p, st, fuel, a, b);
    IntBasic(sym, st.stack, a, b);
    if FitsInt(Meant(sym, a, b)) {
      Operate(p, st, fuel, 2, s, sym, st.stack + [VInt(Meant(sym, a, b))]);
      Finish(p, st, fuel, [VInt(Meant(sym, a, b))]);
    } else {
      FaultAt(p, st, fuel, 2, s, sym, "OVERFLOW");
    }
  }

  /** `a b - b +` leaves a. */
  lemma SubtractAdd(p: seq<Node>, st: State, fuel: nat, a: int, b: int)
    requires Reads(p, [N(a), N(b), O("-"), N(b), O("+")]) && FitsInt(a) && FitsInt(a - b)
    ensures Leaves(p, st, fuel, [VInt(a)])
  {
    Two(p, st, fuel, a, b);
    Binary(p, st, fuel, 2, a, b, "-", a - b);
    Literal(p, st, fuel, 3, st.stack + [VInt(a - b)], N(b));
    assert st.stack + [VInt(a - b)] + [VInt(b)] == st.stack + [VInt(a - b), VInt(b)];
    Binary(p, st, fuel, 4, a - b, b, "+", a);
    Finish(p, st, fuel, [VInt(a)]);
  }

  lemma Binary(p: seq<Node>, st: State, fuel: nat, i: nat, a: int, b: int, sym: string, c: int)
    requires Reached(p, st, fuel, i, st.stack + [VInt(a), VInt(b)]) && i < |p| && IsTok(p[i], O(sym)) && sym in ARITH
    requires Arith(sym, st.stack, VInt(a), VInt(b)) == Next(st.stack + [VInt(c)])
    ensures Reached(p, st, fuel, i + 1, st.stack + [VInt(c)])
  {
    IntBasic(sym, st.stack, a, b);
    Operate(p, st, fuel, i, st.stack + [VInt(a), VInt(b)], sym, st.stack + [VInt(c)]);
  }

  /** `a _ a +` leaves 0; the least integer alone has no opposite. */
  lemma NegateAdd(p: seq<Node>, st: State, fuel: nat, a: int)
    requires Reads(p, [N(a), O("_"), N(a), O("+")]) && FitsInt(a)
    ensures if a == INT_MIN then Faults(p, st, fuel, "OVERFLOW") else Leaves(p, st, fuel, [VInt(0)])
  {
    var s := st.stack + [VInt(a)];
    Begin(p, st, fuel);
    Literal(p, st, fuel, 0, st.stack, N(a));
    assert s[..|s| - 1] == st.stack;
    if a == INT_MIN {
      FaultAt(p, st, fuel, 1, s, "_", "OVERFLOW");
    } else {
      Operate(p, st, fuel, 1, s, "_", st.stack + [VInt(-a)]);
      Literal(p, st, fuel, 2, st.stack + [VInt(-a)], N(a));
      assert st.stack + [VInt(-a)] + [VInt(a)] == st.stack + [VInt(-a), VInt(a)];
      Binary(p, st, fuel, 3, -a, a, "+", 0);
      Finish(p, st, fuel, [VInt(0)]);
    }
  }

  /** The remainder has the sign of the divisor. */
  ghost predicate Remainder(a: int, b: int, q: int, r: int) {
    a == q * b + r && (0 <= r < b || b < r <= 0)
  }

  lemma FloorRemainder(a: int, b: int)
    requires b != 0
    ensures var q := FloorDiv(a, b); Remainder(a, b, q, a - b * q)
  {
    var q := FloorDiv(a, b);
    if b < 0 {
      assert -a == q * -b + (-a) % (-b);
      assert q * -b == -(q * b);
    } else {
      assert a == q * b + a % b;
    }
    assert b * q == q * b;
  }

  lemma AsRealZero(b: int)
    ensures AsReal(VInt(b)) == 0.0 <==> b == 0
  {
  }

  /** `a b %` leaves the r below b in size, of b's sign, with a - r a multiple of b. */
  lemma Modulo(p: seq<Node>, st: State, fuel: nat, a: int, b: int) returns (q: int, r: int)
    requires Reads(p, [N(a), N(b), O("%")]) && FitsInt(b)
    ensures if b == 0 then Faults(p, st, fuel, "DIV_ZERO")
            else Remainder(a, b, q, r) && Leaves(p, st, fuel, [VInt(r)])
  {
    Two(p, st, fuel, a, b);
    IntBasic("%", st.stack, a, b);
    AsRealZero(b);
    q, r := 0, 0;
    if b == 0 {
      FaultAt(p, st, fuel, 2, st.stack + [VInt(a), VInt(b)], "%", "DIV_ZERO");
    } else {
      q, r := FloorDiv(a, b), a - b * FloorDiv(a, b);
      FloorRemainder(a, b);
      Binary(p, st, fuel, 2, a, b, "%", r);
      Finish(p, st, fuel, [VInt(r)]);
    }
  }

  lemma ExactQuotient(q: int, b: int)
    requires b != 0
    ensures FloorDiv(q * b, b) == q && q * b == b * q
  {
    FloorRemainder(q * b, b);
    var d := FloorDiv(q * b, b);
    assert q * b - b * d == (q - d) * b == -((d - q) * b);
    if q - d >= 1 {
      Wide(q - d, b);
    } else if d - q >= 1 {
      Wide(d - q, b);
    }
  }

  lemma Wide(k: int, b: int)
    requires k >= 1
    ensures b > 0 ==> k * b >= b
    ensures b < 0 ==> k * b <= b
  {
    if b > 0 {
      assert (k - 1) * b >= 0;
    } else if b < 0 {
      assert (k - 1) * b <= 0;
    }
    assert k * b == (k - 1) * b + b;
  }

  /** An exact `a b /` leaves the integer q with q * b == a, and `b *` after it a. */
  lemma DivideMultiply(p: seq<Node>, st: State, fuel: nat, a: int, b: int, q: int)
    requires Reads(p, [N(a), N(b), O("/"), N(b), O("*")]) && b != 0 && a == q * b && FitsInt(a) && FitsInt(q)
    ensures Reached(p, st, fuel, 3, st.stack + [VInt(q)]) && Leaves(p, st, fuel, [VInt(a)])
  {
    Two(p, st, fuel, a, b);
    AsRealZero(b);
    ExactQuotient(q, b);
    Binary(p, st, fuel, 2, a, b, "/", q);
    Literal(p, st, fuel, 3, st.stack + [VInt(q)], N(b));
    assert st.stack + [VInt(q)] + [VInt(b)] == st.stack + [VInt(q), VInt(b)];
    Binary(p, st, fuel, 4, q, b, "*", a);
    Finish(p, st, fuel, [VInt(a)]);
  }

  /** Any other quotient is the float whose product with b is a. */
  lemma DivideInexact(p: seq<Node>, st: State, fuel: nat, a: int, b: int) returns (x: real)
    requires Reads(p, [N(a), N(b), O("/")]) && forall q: int :: a != q * b
    ensures if b == 0 then Faults(p, st, fuel, "DIV_ZERO")
            else x * (b as real) == a as real && Leaves(p, st, fuel, [VFlt(x)])
  {
    var s := st.stack + [VInt(a), VInt(b)];
    Two(p, st, fuel, a, b);
    IntBasic("/", st.stack, a, b);
    AsRealZero(b);
    x := 0.0;
    if b == 0 {
      FaultAt(p, st, fuel, 2, s, "/", "DIV_ZERO");
    } else {
      x := (a as real) / (b as real);
      assert a != FloorDiv(a, b) * b;
      assert FloorDiv(a, b) * b == b * FloorDiv(a, b);
      Operate(p, st, fuel, 2, s, "/", st.stack + [VFlt(x)]);
      Finish(p, st, fuel, [VFlt(x)]);
    }
  }

  // ---- numbers of either kind

  function ValueOf(t: Tok): Value {
    match t
    case N(n) => VInt(n)
    case R(x) => VFlt(x)
    case S(s) => VStr(s)
    case O(_) => VInt(0)
  }

  predicate Number(t: Tok) {
    t.N? || t.R?
  }

  function RealOf(t: Tok): real
    requires Number(t)
  {
    if t.N? then t.i as real else t.x
  }

  lemma TwoTokens(p: seq<Node>, st: State, fuel: nat, t: Tok, u: Tok)
    requires |p| >= 2 && IsTok(p[0], t) && IsTok(p[1], u) && !t.O? && !u.O?
    ensures Reached(p, st, fuel, 2, st.stack + [ValueOf(t), ValueOf(u)])
  {
    Begin(p, st, fuel);
    Literal(p, st, fuel, 0, st.stack, t);
    Literal(p, st, fuel, 1, st.stack + [ValueOf(t)], u);
    assert st.stack + [ValueOf(t)] + [ValueOf(u)] == st.stack + [ValueOf(t), ValueOf(u)];
  }

  lemma NumberBasic(sym: string, rest: seq<Value>, t: Tok, u: Tok)
    requires sym in ARITH && Number(t) && Number(u)
    ensures Basic(sym, rest + [ValueOf(t), ValueOf(u)]) == Arith(sym, rest, ValueOf(t), ValueOf(u))
    ensures AsReal(ValueOf(t)) == RealOf(t) && AsReal(ValueOf(u)) == RealOf(u)
  {
    Split(rest, ValueOf(t), ValueOf(u));
  }

  /** With a float among them, sums, differences and products are those of the reals. */
  lemma FloatComputes(p: seq<Node>, st: State, fuel: nat, t: Tok, u: Tok, sym: string) returns (z: real)
    requires sym in {"+", "-", "*"} && Reads(p, [t, u, O(sym)]) && Number(t) && Number(u) && (t.R? || u.R?)
    ensures Leaves(p, st, fuel, [VFlt(z)])
    ensures sym == "+" ==> z == RealOf(t) + RealOf(u)
    ensures sym == "-" ==> z + RealOf(u) == RealOf(t)
    ensures sym == "*" ==> z == RealOf(t) * RealOf(u)
  {
    var x, y := RealOf(t), RealOf(u);
    TwoTokens(p, st, fuel, t, u);
    NumberBasic(sym, st.stack, t, u);
    z := if sym == "+" then x + y else if sym == "-" then x - y else x * y;
    FloatArith(sym, st.stack, ValueOf(t), ValueOf(u), x, y, z);
    Operate(p, st, fuel, 2, st.stack + [ValueOf(t), ValueOf(u)], sym, st.stack + [VFlt(z)]);
    Finish(p, st, fuel, [VFlt(z)]);
  }

  lemma FloatArith(sym: string, rest: seq<Value>, v: Value, w: Value, x: real, y: real, z: real)
    requires IsNum(v) && IsNum(w) && !(v.VInt? && w.VInt?) && x == AsReal(v) && y == AsReal(w)
    requires sym in {"+", "-", "*"} && z == if sym == "+" then x + y else if sym == "-" then x - y else x * y
    ensures Arith(sym, rest, v, w) == Next(rest + [VFlt(z)])
  {
    assert sym == "*" ==> z == Product(x, y);
  }

  /** The quotient times the divisor is the dividend. */
  lemma FloatDivides(p: seq<Node>, st: State, fuel: nat, t: Tok, u: Tok) returns (v: Value)
    requires Reads(p, [t, u, O("/")]) && Number(t) && Number(u) && (t.R? || u.R?)
    ensures if RealOf(u) == 0.0 then Faults(p, st, fuel, "DIV_ZERO")
            else IsNum(v) && AsReal(v) * RealOf(u) == RealOf(t) && Leaves(p, st, fuel, [v])
  {
    var x, y, s := RealOf(t), RealOf(u), st.stack + [ValueOf(t), ValueOf(u)];
    TwoTokens(p, st, fuel, t, u);
    NumberBasic("/", st.stack, t, u);
    v := VInt(0);
    if y == 0.0 {
      FaultAt(p, st, fuel, 2, s, "/", "DIV_ZERO");
    } else {
      var f := (x / y).Floor;
      v := if f as real == x / y && FitsInt(f) then VInt(f) else VFlt(x / y);
      assert AsReal(v) == x / y;
      Operate(p, st, fuel, 2, s, "/", st.stack + [v]);
      Finish(p, st, fuel, [v]);
    }
  }

  lemma RealRemainder(x: real, y: real, q: int)
    requires y != 0.0 && q == (x / y).Floor
    ensures var r := x - y * (q as real); 0.0 <= r < y || y < r <= 0.0
  {
    var k := x / y;
    var d := k - q as real;
    assert x == k * y;
    var g := q as real;
    assert d * y == k * y - g * y && g * y == y * g;
    Part(d, y, x - y * g);
  }

  /** A part of y lies between 0 and y. */
  lemma Part(d: real, y: real, r: real)
    requires 0.0 <= d < 1.0 && y != 0.0 && r == d * y
    ensures 0.0 <= r < y || y < r <= 0.0
  {
    var e := 1.0 - d;
    assert r + e * y == y;
    if y > 0.0 {
      assert r >= 0.0 && e * y > 0.0;
    } else {
      assert r <= 0.0 && e * y < 0.0;
    }
  }

  /** The remainder has the sign of the divisor here too. */
  lemma FloatModulo(p: seq<Node>, st: State, fuel: nat, t: Tok, u: Tok) returns (q: int, r: real)
    requires Reads(p, [t, u, O("%")]) && Number(t) && Number(u) && (t.R? || u.R?)
    ensures if RealOf(u) == 0.0 then Faults(p, st, fuel, "DIV_ZERO")
            else RealOf(t) == (q as real) * RealOf(u) + r && (0.0 <= r < RealOf(u) || RealOf(u) < r <= 0.0)
                 && Leaves(p, st, fuel, [VFlt(r)])
  {
    var x, y, s := RealOf(t), RealOf(u), st.stack + [ValueOf(t), ValueOf(u)];
    TwoTokens(p, st, fuel, t, u);
    NumberBasic("%", st.stack, t, u);
    q, r := 0, 0.0;
    if y == 0.0 {
      FaultAt(p, st, fuel, 2, s, "%", "DIV_ZERO");
    } else {
      q := (x / y).Floor;
      r := Modulus(x, y);
      RealRemainder(x, y, q);
      Operate(p, st, fuel, 2, s, "%", st.stack + [VFlt(r)]);
      Finish(p, st, fuel, [VFlt(r)]);
    }
  }

  // ---- comparisons

  /** Two numbers, or two strings. */
  predicate Comparable(t: Tok, u: Tok) {
    (Number(t) && Number(u)) || (t.S? && u.S?)
  }

  /** What comparing two literals leaves: 1 or 0, and for numbers which. */
  lemma Compares(p: seq<Node>, st: State, fuel: nat, t: Tok, u: Tok, sym: string) returns (b: int)
    requires sym in COMPARE && Reads(p, [t, u, O(sym)]) && Comparable(t, u)
    ensures Leaves(p, st, fuel, [VInt(b)]) && (b == 0 || b == 1)
    ensures Number(t) && sym == "==" ==> (b == 1 <==> RealOf(t) == RealOf(u))
    ensures Number(t) && sym == "<" ==> (b == 1 <==> RealOf(t) < RealOf(u))
    ensures Number(t) && sym == ">" ==> (b == 1 <==> RealOf(t) > RealOf(u))
    ensures t.S? && sym == "==" ==> (b == 1 <==> t.s == u.s)
    ensures t.S? && sym == "<" ==> (b == 1 <==> StrLess(t.s, u.s))
    ensures t.S? && sym == ">" ==> (b == 1 <==> StrLess(u.s, t.s))
    ensures Number(t) && sym == "<=" ==> (b == 1 <==> RealOf(t) <= RealOf(u))
    ensures Number(t) && sym == ">=" ==> (b == 1 <==> RealOf(t) >= RealOf(u))
    ensures t.S? && sym == "<=" ==> (b == 1 <==> !StrLess(u.s, t.s))
    ensures t.S? && sym == ">=" ==> (b == 1 <==> !StrLess(t.s, u.s))
    ensures Number(t) && sym == "!=" ==> (b == 1 <==> RealOf(t) != RealOf(u))
    ensures t.S? && sym == "!=" ==> (b == 1 <==> t.s != u.s)
  {
    var v, w := ValueOf(t), ValueOf(u);
    TwoTokens(p, st, fuel, t, u);
    CompareBasic(sym, st.stack, v, w);
    var e := Compare(sym, st.stack, v, w);
    b := CompareBit(sym, st.stack, t, u);
    Operate(p, st, fuel, 2, st.stack + [v, w], sym, st.stack + [VInt(b)]);
    Finish(p, st, fuel, [VInt(b)]);
  }

  lemma CompareBit(sym: string, rest: seq<Value>, t: Tok, u: Tok) returns (b: int)
    requires sym in COMPARE && Comparable(t, u)
    ensures Compare(sym, rest, ValueOf(t), ValueOf(u)) == Next(rest + [VInt(b)]) && (b == 0 || b == 1)
    ensures Number(t) ==> (b == 1 <==> (
      if sym == "==" then RealOf(t) == RealOf(u) else if sym == "!=" then RealOf(t) != RealOf(u)
      else if sym == "<" then RealOf(t) < RealOf(u) else if sym == ">" then RealOf(t) > RealOf(u)
      else if sym == "<=" then RealOf(t) <= RealOf(u) else RealOf(t) >= RealOf(u)))
    ensures t.S? ==> (b == 1 <==> (
      if sym == "==" then t.s == u.s else if sym == "!=" then t.s != u.s
      else if sym == "<" then StrLess(t.s, u.s) else if sym == ">" then StrLess(u.s, t.s)
      else if sym == "<=" then !StrLess(u.s, t.s) else !StrLess(t.s, u.s)))
  {
    b := Compare(sym, rest, ValueOf(t), ValueOf(u)).stack[|rest|].i;
  }

  /** The order of strings is total, without a string below itself. */
  lemma {:induction false} StrTotal(s: string, t: string)
    ensures StrLess(s, t) ==> s != t && !StrLess(t, s)
    ensures s == t || StrLess(s, t) || StrLess(t, s)
  {
    if s != "" && t != "" {
      StrTotal(s[1..], t[1..]);
      assert s == [s[0]] + s[1..] && t == [t[0]] + t[1..];
    }
  }

  lemma {:induction false} StrTransitive(s: string, t: string, u: string)
    requires StrLess(s, t) && StrLess(t, u)
    ensures StrLess(s, u)
  {
    if s != "" && s[0] == t[0] == u[0] {
      StrTransitive(s[1..], t[1..], u[1..]);
    }
  }

  /** Exactly one of `<`, `==` and `>` leaves 1, and each of the others leaves what
      its opposite does not. */
  lemma Trichotomy(ps: map<string, seq<Node>>, st: State, fuel: nat, t: Tok, u: Tok) returns (lt: int, eq: int, gt: int)
    requires ps.Keys == COMPARE && Comparable(t, u) && forall sym | sym in COMPARE :: Reads(ps[sym], [t, u, O(sym)])
    ensures lt >= 0 && eq >= 0 && gt >= 0 && lt + eq + gt == 1
    ensures Leaves(ps["<"], st, fuel, [VInt(lt)]) && Leaves(ps["=="], st, fuel, [VInt(eq)])
    ensures Leaves(ps[">"], st, fuel, [VInt(gt)]) && Leaves(ps["<="], st, fuel, [VInt(1 - gt)])
    ensures Leaves(ps[">="], st, fuel, [VInt(1 - lt)]) && Leaves(ps["!="], st, fuel, [VInt(1 - eq)])
  {
    lt := Compares(ps["<"], st, fuel, t, u, "<");
    eq := Compares(ps["=="], st, fuel, t, u, "==");
    gt := Compares(ps[">"], st, fuel, t, u, ">");
    var le := Compares(ps["<="], st, fuel, t, u, "<=");
    var ge := Compares(ps[">="], st, fuel, t, u, ">=");
    var ne := Compares(ps["!="], st, fuel, t, u, "!=");
    if t.S? {
      StrTotal(t.s, u.s);
    }
  }

  // ---- truth, and the stack

  lemma One(p: seq<Node>, st: State, fuel: nat, a: int)
    requires |p| >= 1 && IsTok(p[0], N(a))
    ensures Reached(p, st, fuel, 1, st.stack + [VInt(a)])
  {
    Begin(p, st, fuel);
    Literal(p, st, fuel, 0, st.stack, N(a));
  }

  /** `!` exchanges zero and the rest; `&&` and `||` are their conjunction and
      disjunction. */
  lemma Negates(p: seq<Node>, st: State, fuel: nat, a: int)
    requires Reads(p, [N(a), O("!")])
    ensures Leaves(p, st, fuel, [VInt(if a == 0 then 1 else 0)])
  {
    var s := st.stack + [VInt(a)];
    One(p, st, fuel, a);
    assert s[..|s| - 1] == st.stack;
    Operate(p, st, fuel, 1, s, "!", st.stack + [VInt(if a == 0 then 1 else 0)]);
    Finish(p, st, fuel, [VInt(if a == 0 then 1 else 0)]);
  }

  lemma Joins(p: seq<Node>, st: State, fuel: nat, a: int, b: int, sym: string)
    requires sym in {"&&", "||"} && Reads(p, [N(a), N(b), O(sym)])
    ensures Leaves(p, st, fuel, [VInt(if (a != 0 && b != 0) || (sym == "||" && (a != 0 || b != 0)) then 1 else 0)])
  {
    var v := VInt(if (a != 0 && b != 0) || (sym == "||" && (a != 0 || b != 0)) then 1 else 0);
    Two(p, st, fuel, a, b);
    Split(st.stack, VInt(a), VInt(b));
    Operate(p, st, fuel, 2, st.stack + [VInt(a), VInt(b)], sym, st.stack + [v]);
    Finish(p, st, fuel, [v]);
  }

  /** `\` twice changes nothing; once, it exchanges the two values on top. */
  lemma SwapTwice(p: seq<Node>, st: State, fuel: nat)
    requires Reads(p, [O("\\"), O("\\")]) && |st.stack| >= 2
    ensures Leaves(p, st, fuel, [])
    ensures var s, n := st.stack, |st.stack|; Reached(p, st, fuel, 1, s[..n - 2] + [s[n - 1], s[n - 2]])
  {
    var n := |st.stack|;
    var a, b, rest := st.stack[n - 2], st.stack[n - 1], st.stack[..n - 2];
    assert st.stack == rest + [a, b];
    Begin(p, st, fuel);
    Operate(p, st, fuel, 0, st.stack, "\\", rest + [b, a]);
    Split(rest, b, a);
    Operate(p, st, fuel, 1, rest + [b, a], "\\", rest + [a, b]);
    assert st.stack + [] == st.stack;
    Finish(p, st, fuel, []);
  }

  /** `&` leaves the lower of the two values once more, on top. */
  lemma Over(p: seq<Node>, st: State, fuel: nat)
    requires Reads(p, [O("&")]) && |st.stack| >= 2
    ensures Leaves(p, st, fuel, [st.stack[|st.stack| - 2]])
  {
    Begin(p, st, fuel);
    Operate(p, st, fuel, 0, st.stack, "&", st.stack + [st.stack[|st.stack| - 2]]);
    Finish(p, st, fuel, [st.stack[|st.stack| - 2]]);
  }

  /** `=` leaves the top once more, and `,` takes it away. */
  lemma CopyDrop(p: seq<Node>, st: State, fuel: nat)
    requires Reads(p, [O("="), O(",")]) && st.stack != []
    ensures Reached(p, st, fuel, 1, st.stack + [st.stack[|st.stack| - 1]]) && Leaves(p, st, fuel, [])
  {
    var v := st.stack[|st.stack| - 1];
    Begin(p, st, fuel);
    Operate(p, st, fuel, 0, st.stack, "=", st.stack + [v]);
    assert (st.stack + [v])[..|st.stack + [v]| - 1] == st.stack;
    Operate(p, st, fuel, 1, st.stack + [v], ",", st.stack);
    assert st.stack + [] == st.stack;
    Finish(p, st, fuel, []);
  }

  /** `.` takes the top away and puts it out last. */
  lemma Prints(p: seq<Node>, st: State, fuel: nat, a: int)
    requires Reads(p, [N(a), O(".")])
    ensures var r := ExecSeq(p, 0, st, fuel); r.status == Ran && r.st == st.(out := st.out + [VInt(a)])
  {
    var s := st.(stack := st.stack + [VInt(a)]);
    One(p, st, fuel, a);
    assert s.stack[..|s.stack| - 1] == st.stack;
    var after := s.(stack := st.stack, out := s.out + [VInt(a)]);
    assert Exec(p[1], s, fuel) == ExecOp(".", s, fuel) == Ok(after);
    assert after == st.(out := st.out + [VInt(a)]);
    Step(p, 1, s, fuel, after);
  }

  // ---- choice and names

  /** `a [t] [e] ?` leaves t, unless a is zero. */
  lemma Selects(p: seq<Node>, st: State, fuel: nat, a: int)
    requires |p| == 4 && IsTok(p[0], N(a)) && p[1].Blk? && p[2].Blk? && IsTok(p[3], O("?"))
    ensures Leaves(p, st, fuel, [VBlk(if a != 0 then p[1].nodes else p[2].nodes)])
  {
    var t, e := VBlk(p[1].nodes), VBlk(p[2].nodes);
    var s1 := st.(stack := st.stack + [VInt(a)]);
    var s2, s3 := Push(s1, t), Push(Push(s1, t), e);
    One(p, st, fuel, a);
    Step(p, 1, s1, fuel, s2);
    Step(p, 2, s2, fuel, s3);
    Picks(s3, st, VInt(a), t, e, fuel);
    assert Exec(p[3], s3, fuel) == ExecOp("?", s3, fuel);
    Step(p, 3, s3, fuel, Push(st, if a != 0 then t else e));
  }

  lemma Picks(s: State, st: State, v: Value, t: Value, e: Value, fuel: nat)
    requires s == st.(stack := st.stack + [v] + [t] + [e]) && t.VBlk? && e.VBlk?
    ensures ExecOp("?", s, fuel) == Ok(Push(st, if Truthy(v) then t else e))
  {
    assert Pop(s, 3) == st;
  }

  /** `a :x x 'x` leaves a twice, and x is gone. */
  lemma BindThenMove(p: seq<Node>, st: State, fuel: nat, a: int, x: string)
    requires |p| == 4 && IsTok(p[0], N(a)) && p[1].Bind? && p[2].Name? && p[3].Move?
    requires p[1].name == p[2].name == p[3].name == x
    ensures var r := ExecSeq(p, 0, st, fuel);
      r.status == Ran && r.st == st.(stack := st.stack + [VInt(a), VInt(a)], env := st.env - {x})
  {
    var v := VInt(a);
    var s1 := st.(stack := st.stack + [v]);
    var s2 := st.(env := st.env[x := v]);
    One(p, st, fuel, a);
    assert Pop(s1, 1) == st;
    Step(p, 1, s1, fuel, s2);
    BoundMove(p, s2, fuel, x, v);
    assert s2.env - {x} == st.env - {x};
    assert s2.stack + [v, v] == st.stack + [v, v];
  }

  lemma BoundMove(p: seq<Node>, s: State, fuel: nat, x: string, v: Value)
    requires |p| == 4 && p[2].Name? && p[3].Move? && p[2].name == p[3].name == x && x in s.env && s.env[x] == v
    ensures var r := ExecSeq(p, 2, s, fuel);
      r.status == Ran && r.st == s.(stack := s.stack + [v, v], env := s.env - {x})
  {
    var t := Push(s, v);
    var u := s.(stack := s.stack + [v, v], env := s.env - {x});
    Step(p, 2, s, fuel, t);
    assert Push(t.(env := t.env - {x}), v) == u;
    Step(p, 3, t, fuel, u);
  }
}
