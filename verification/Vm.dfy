// The machine as the source keeps it: one object whose fields every node
// updates, faults unwinding through it. Each method does what Machine says.

module Vm {
  import opened Syntax
  import M = Machine
  import opened Machine

  class VM {
    var stack: seq<Value>
    var env: Env
    var caps: set<string>
    var depth: nat
    var out: seq<Value>
    ghost var seen: set<Event>

    function View(): State
      reads this
    {
      State(stack, env, caps, depth, out)
    }

    /** The object is where r says, having seen r's events after those before. */
    ghost predicate At(status: Status, r: Result, before: set<Event>)
      reads this
    {
      && status == r.status && seen == before + r.seen
      && env == r.st.env && caps == r.st.caps && depth == r.st.depth && out == r.st.out
      && (status.Ran? ==> stack == r.st.stack)
    }

    constructor ()
      ensures View() == BEGIN && seen == {}
    {
      stack, env, caps, depth, out := [], map[], {}, 0, [];
      seen := {};
    }

    method PopValue() returns (v: Value)
      requires stack != []
      modifies this`stack
      ensures v == old(stack)[|old(stack)| - 1] && stack == old(stack)[..|old(stack)| - 1]
    {
      v := stack[|stack| - 1];
      stack := stack[..|stack| - 1];
    }

    /** A block from the top, or the fault for want of one. */
    method PopBlock() returns (status: Status, body: seq<Node>)
      modifies this`stack
      ensures old(stack) == [] ==> status == Raised("STACK_UNDERFLOW")
      ensures old(stack) != [] ==>
        var n := |old(stack)| - 1;
        && stack == old(stack)[..n]
        && status == (if old(stack)[n].VBlk? then Ran else Raised("NOT_CALLABLE"))
        && (status.Ran? ==> body == old(stack)[n].nodes)
    {
      body := [];
      if stack == [] {
        return Raised("STACK_UNDERFLOW"), [];
      }
      var v := PopValue();
      if !v.VBlk? {
        return Raised("NOT_CALLABLE"), [];
      }
      return Ran, v.nodes;
    }

    method Run(nodes: seq<Node>, fuel: nat) returns (status: Status)
      modifies this
      ensures At(status, ExecSeq(nodes, 0, old(View()), fuel), old(seen))
      decreases fuel, Room(View()), |nodes| + 6
    {
      ghost var st0, got: set<Event> := View(), {};
      for i := 0 to |nodes|
        invariant depth == st0.depth && seen == old(seen) + got
        invariant ExecSeq(nodes, 0, st0, fuel) == Then(got, ExecSeq(nodes, i, View(), fuel))
      {
        ghost var r := M.ExecNode(nodes[i], View(), fuel);
        ThenThen(got, r.seen, ExecSeq(nodes, i + 1, r.st, fuel));
        status := ExecNode(nodes[i], fuel);
        got := got + r.seen;
        if !status.Ran? {
          return;
        }
      }
      status := Ran;
    }

    method ExecNode(n: Node, fuel: nat) returns (status: Status)
      modifies this
      ensures At(status, M.ExecNode(n, old(View()), fuel), old(seen))
      decreases fuel, Room(View()), 5
    {
      seen := seen + {Enter(n.pos, caps)} + Refusal(n, View());
      status := ExecTag(n, fuel);
      match status {
        case Ran => seen := seen + {Leave(n.pos)};
        case Raised(code) => seen := seen + {Raise(n.pos, code)};
        case Spent =>
      }
    }

    method ExecTag(n: Node, fuel: nat) returns (status: Status)
      modifies this
      ensures At(status, M.Exec(n, old(View()), fuel), old(seen))
      decreases fuel, Room(View()), 4
    {
      status := Ran;
      match n {
        case Int(i, _) => stack := stack + [VInt(i)];
        case Flt(x, _) => stack := stack + [VFlt(x)];
        case Str(s, _) => stack := stack + [VStr(s)];
        case Blk(nodes, _) => stack := stack + [VBlk(nodes)];
        case Cap(c, _) => stack := stack + [VCap(c)];
        case Bind(x, _) =>
          if stack == [] {
            return Raised("STACK_UNDERFLOW");
          }
          var v := PopValue();
          env := env[x := v];
        case Move(x, _) =>
          if x !in env {
            return Raised("NAME_UNRESOLVED");
          }
          stack := stack + [env[x]];
          env := env - {x};
        case Name(x, _) => status := ExecName(x, fuel);
        case Op(sym, _) => status := ExecOp(sym, fuel);
      }
    }

    method ExecName(x: string, fuel: nat) returns (status: Status)
      modifies this
      ensures At(status, M.Exec(Name(x, 0), old(View()), fuel), old(seen))
      decreases fuel, Room(View()), 3, 1
    {
      if x in env {
        stack := stack + [env[x]];
        return Ran;
      }
      if x in BUILTINS {
        status := ExecWord(x, fuel);
        return;
      }
      return Raised("NAME_UNRESOLVED");
    }

    method ExecWord(x: string, fuel: nat) returns (status: Status)
      requires x in BUILTINS
      modifies this
      ensures At(status, M.ExecWord(x, old(View()), fuel), old(seen))
      decreases fuel, Room(View()), 3, 0
    {
      if x == "gr" {
        status := BGrant(fuel);
      } else if x == "ty" {
        status := BAttempt(fuel);
      } else if stack == [] {
        return Raised("STACK_UNDERFLOW");
      } else {
        var v := PopValue();
        if !v.VCap? {
          return Raised("TYPE_MISMATCH");
        }
        if x == "rq" {
          status := if v.cap in caps then Ran else Raised("CAP_DENIED");
        } else {
          stack := stack + [VInt(if v.cap in caps then 1 else 0)];
          status := Ran;
        }
      }
    }

    method BGrant(fuel: nat) returns (status: Status)
      modifies this
      ensures At(status, M.ExecWord("gr", old(View()), fuel), old(seen))
      decreases fuel, Room(View()), 2
    {
      var body;
      status, body := PopBlock();
      if !status.Ran? {
        return;
      }
      if stack == [] {
        return Raised("STACK_UNDERFLOW");
      }
      var v := PopValue();
      if !v.VCap? {
        return Raised("TYPE_MISMATCH");
      }
      var had := v.cap in caps;
      assert stack == old(stack)[..|old(stack)| - 2];
      caps := caps + {v.cap};
      status := Invoke(body, fuel);
      if !had {
        caps := caps - {v.cap};
      }
    }

    method BAttempt(fuel: nat) returns (status: Status)
      modifies this
      ensures At(status, M.ExecWord("ty", old(View()), fuel), old(seen))
      decreases fuel, Room(View()), 2
    {
      var body;
      status, body := PopBlock();
      if !status.Ran? {
        return;
      }
      var saved := stack;
      stack := [];
      status := Invoke(body, fuel);
      match status {
        case Spent =>
        case Raised(code) =>
          stack := saved + [VRes(false, VStr(code))];
          status := Ran;
        case Ran =>
          var left := stack;
          stack := saved;
          if |left| != 1 {
            return Raised("BOUNDS");
          }
          stack := stack + [VRes(true, left[0])];
      }
    }

    method ExecOp(sym: string, fuel: nat) returns (status: Status)
      modifies this
      ensures At(status, M.ExecOp(sym, old(View()), fuel), old(seen))
      decreases fuel, Room(View()), 3
    {
      match sym {
        case "@" => status := OpInvoke(fuel);
        case "?" => status := OpSelect(fuel);
        case ";" => status := OpWhile(fuel);
        case "??" => status := OpMatch(fuel);
        case _ =>
          status := Ran;
          match Basic(sym, stack) {
            case Next(s) => stack := s;
            case Print(s, v) =>
              out := out + [v];
              stack := s;
            case Err(code) => status := Raised(code);
          }
      }
    }

    method OpInvoke(fuel: nat) returns (status: Status)
      modifies this
      ensures At(status, M.ExecOp("@", old(View()), fuel), old(seen))
      decreases fuel, Room(View()), 2
    {
      var body;
      status, body := PopBlock();
      if status.Ran? {
        status := Invoke(body, fuel);
      }
    }

    method OpSelect(fuel: nat) returns (status: Status)
      modifies this
      ensures At(status, M.ExecOp("?", old(View()), fuel), old(seen))
    {
      var els, thn;
      status, els := PopBlock();
      if !status.Ran? {
        return;
      }
      status, thn := PopBlock();
      if !status.Ran? {
        return;
      }
      if stack == [] {
        return Raised("STACK_UNDERFLOW");
      }
      var cond := PopValue();
      assert stack == old(stack)[..|old(stack)| - 3];
      stack := stack + [VBlk(if Truthy(cond) then thn else els)];
    }

    method OpWhile(fuel: nat) returns (status: Status)
      modifies this
      ensures At(status, M.ExecOp(";", old(View()), fuel), old(seen))
      decreases fuel, Room(View()), 2, 1
    {
      var cond, body;
      status, body := PopBlock();
      if !status.Ran? {
        return;
      }
      status, cond := PopBlock();
      if !status.Ran? {
        return;
      }
      assert stack == old(stack)[..|old(stack)| - 2];
      status := Loop(cond, body, fuel);
    }

    method Loop(cond: seq<Node>, body: seq<Node>, fuel: nat) returns (status: Status)
      modifies this
      ensures At(status, M.While(cond, body, old(View()), fuel), old(seen))
      decreases fuel, Room(View()), 2, 0
    {
      ghost var st0, got: set<Event> := View(), {};
      var left: nat := fuel;
      while true
        invariant left <= fuel && depth == st0.depth && seen == old(seen) + got
        invariant M.While(cond, body, st0, fuel) == Then(got, M.While(cond, body, View(), left))
        decreases left
      {
        ghost var st := View();
        status := Invoke(cond, left);
        if !status.Ran? {
          return;
        }
        if stack == [] {
          return Raised("STACK_UNDERFLOW");
        }
        var v := PopValue();
        if !Truthy(v) {
          return Ran;
        }
        ghost var st1 := View();
        status := Invoke(body, left);
        if !status.Ran? {
          return;
        }
        if left == 0 {
          return Spent;
        }
        left := left - 1;
        ghost var r, s := M.Invoke(cond, st, left + 1), M.Invoke(body, st1, left + 1);
        WhileAgain(cond, body, st, left, got);
        got := got + (r.seen + s.seen);
      }
    }

    method OpMatch(fuel: nat) returns (status: Status)
      modifies this
      ensures At(status, M.ExecOp("??", old(View()), fuel), old(seen))
      decreases fuel, Room(View()), 2
    {
      var arms;
      status, arms := PopBlock();
      if !status.Ran? {
        return;
      }
      if stack == [] {
        return Raised("STACK_UNDERFLOW");
      }
      var subject := PopValue();
      assert stack == old(stack)[..|old(stack)| - 2];
      if |arms| % 2 != 0 {
        return Raised("BAD_PATTERN");
      }
      match Choose(arms, 0, subject) {
        case Refused(code) => return Raised(code);
        case Chosen(body, value) =>
          stack := stack + [value];
          status := Invoke(body, fuel);
      }
    }

    /** Runs a block; the depth is restored on every way out. */
    method Invoke(body: seq<Node>, fuel: nat) returns (status: Status)
      modifies this
      ensures At(status, M.Invoke(body, old(View()), fuel), old(seen))
      decreases fuel, Room(View()), 1
    {
      if depth >= MAX_INVOKE_DEPTH {
        return Raised("STACK_OVERFLOW");
      }
      depth := depth + 1;
      status := Run(body, fuel);
      depth := depth - 1;
    }
  }

  lemma WhileAgain(cond: seq<Node>, body: seq<Node>, st: State, left: nat, got: set<Event>)
    requires var r := M.Invoke(cond, st, left + 1);
      r.status.Ran? && r.st.stack != [] && Truthy(Top(r.st, 1))
      && M.Invoke(body, Pop(r.st, 1), left + 1).status.Ran?
    ensures var r := M.Invoke(cond, st, left + 1);
      var s := M.Invoke(body, Pop(r.st, 1), left + 1);
      Then(got, M.While(cond, body, st, left + 1))
      == Then(got + (r.seen + s.seen), M.While(cond, body, s.st, left))
  {
    var r := M.Invoke(cond, st, left + 1);
    var s := M.Invoke(body, Pop(r.st, 1), left + 1);
    ThenThen(r.seen, s.seen, M.While(cond, body, s.st, left));
    ThenThen(got, r.seen + s.seen, M.While(cond, body, s.st, left));
  }

  lemma ThenThen(a: set<Event>, b: set<Event>, r: Result)
    ensures Then(a, Then(b, r)) == Then(a + b, r)
  {
    assert a + (b + r.seen) == (a + b) + r.seen;
  }
}
