// What the static checker of zown/checker.py reports, as a function of the
// program: name resolution, use after move, capability flow and match arms, on
// the safety core (no gd, wd, lanes, host words or SIMD constructors).

module CheckerModel {
  import opened Syntax
  import Machine

  /** The authority a sequence runs under: an exact set, or anything. */
  datatype Known = Unknown | Exact(caps: set<string>)

  datatype Rule = Unbound | MovedOut | Denied | NeverGranted | BadArms | NotExhaustive

  /** The `.zerr` code a diagnostic carries. */
  function CodeOf(rule: Rule): string {
    match rule
    case Unbound => "NAME_UNRESOLVED"
    case MovedOut => "NAME_UNRESOLVED"
    case Denied => "CAP_DENIED"
    case NeverGranted => "CAP_DENIED"
    case BadArms => "BAD_PATTERN"
    case NotExhaustive => "NO_MATCH"
  }

  /** A diagnostic; or the note, kept only here, that a node of an anchored
      sequence was walked with this exact authority. */
  datatype Finding =
    | Diag(pos: nat, rule: Rule)
    | Runs(pos: nat, caps: set<string>)

  /** What the pre-passes know of the whole program. `inherit` is how the source
      walks: a `;` condition inherits the moved-out names of its surroundings. */
  datatype Ctx = Ctx(bound: set<string>, grantable: set<string>, usesTy: bool, inherit: bool)

  // ---- looking around a node

  predicate IsWord(c: Ctx, n: Node, w: string) {
    n.Name? && n.name == w && w !in c.bound
  }

  predicate WordAt(c: Ctx, nodes: seq<Node>, i: int, w: string) {
    0 <= i < |nodes| && IsWord(c, nodes[i], w)
  }

  predicate OpAt(nodes: seq<Node>, i: int, sym: string) {
    0 <= i < |nodes| && nodes[i].Op? && nodes[i].sym == sym
  }

  predicate BlkAt(nodes: seq<Node>, i: int) {
    0 <= i < |nodes| && nodes[i].Blk?
  }

  predicate CapAt(nodes: seq<Node>, i: int) {
    0 <= i < |nodes| && nodes[i].Cap?
  }

  // ---- pre-passes

  function Binds(nodes: seq<Node>): set<string> {
    if nodes == [] then {}
    else
      (match nodes[0]
       case Bind(x, _) => {x}
       case Blk(b, _) => Binds(b)
       case _ => {}) + Binds(nodes[1..])
  }

  /** Capability literals from index i on that `rq` or `hv` does not consume. */
  function FreeCaps(bound: set<string>, nodes: seq<Node>, i: nat): set<string>
    requires i <= |nodes|
    decreases nodes, |nodes| - i
  {
    if i == |nodes| then {}
    else
      var c := Ctx(bound, {}, false, true);
      (match nodes[i]
       case Cap(cap, _) =>
         if WordAt(c, nodes, i + 1, "rq") || WordAt(c, nodes, i + 1, "hv") then {} else {cap}
       case Blk(b, _) => FreeCaps(bound, b, 0)
       case _ => {}) + FreeCaps(bound, nodes, i + 1)
  }

  predicate UsesTy(bound: set<string>, nodes: seq<Node>) {
    nodes != [] &&
    ((nodes[0].Name? && nodes[0].name == "ty" && "ty" !in bound)
     || (nodes[0].Blk? && UsesTy(bound, nodes[0].nodes))
     || UsesTy(bound, nodes[1..]))
  }

  function Context(program: seq<Node>, inherit: bool): Ctx {
    var bound := Binds(program);
    Ctx(bound, if "gr" in bound then {} else FreeCaps(bound, program, 0), UsesTy(bound, program), inherit)
  }

  // ---- how a block literal is consumed

  datatype Use = Arms | Inline | LoopBody | LoopCond | Grant | Try | Escapes

  function UseOf(c: Ctx, nodes: seq<Node>, i: nat): Use {
    if OpAt(nodes, i + 1, "??") then Arms
    else if OpAt(nodes, i + 1, "@") then Inline
    else if OpAt(nodes, i + 1, ";") then LoopBody
    else if BlkAt(nodes, i + 1) && OpAt(nodes, i + 2, ";") then LoopCond
    else if OpAt(nodes, i + 1, "?") && OpAt(nodes, i + 2, "@") then Inline
    else if BlkAt(nodes, i + 1) && OpAt(nodes, i + 2, "?") && OpAt(nodes, i + 3, "@") then Inline
    else if WordAt(c, nodes, i + 1, "gr") then Grant
    else if WordAt(c, nodes, i + 1, "ty") then Try
    else Escapes
  }

  function InnerKnown(nodes: seq<Node>, i: nat, use: Use, known: Known): Known {
    match use
    case Escapes => Unknown
    case Grant =>
      if CapAt(nodes, i - 1) && known.Exact? then Exact(known.caps + {nodes[i - 1].cap}) else Unknown
    case _ => known
  }

  function InnerMoved(c: Ctx, use: Use, moved: set<string>): set<string> {
    if use == LoopBody || use == Escapes || (use == LoopCond && !c.inherit) then {} else moved
  }

  function MovedAfter(c: Ctx, n: Node, moved: set<string>): set<string> {
    match n
    case Move(x, _) => moved + {x}
    case Bind(x, _) => moved - {x}
    case Op(sym, _) => if sym == "@" || sym == ";" || sym == "??" then {} else moved
    case Name(x, _) => if (x == "gr" || x == "ty") && x !in c.bound then {} else moved
    case _ => moved
  }

  // ---- findings

  function When(b: bool, f: Finding): seq<Finding> {
    if b then [f] else []
  }

  function Require(c: Ctx, cap: string, pos: nat, known: Known): seq<Finding> {
    if known.Exact? && cap !in known.caps then [Diag(pos, Denied)]
    else When(cap !in c.grantable && !c.usesTy, Diag(pos, NeverGranted))
  }

  /** What the node at i itself is reported for. */
  function LeafFindings(c: Ctx, nodes: seq<Node>, i: nat, known: Known, inTy: bool, moved: set<string>): seq<Finding>
    requires i < |nodes|
  {
    var n := nodes[i];
    match n
    case Name(x, pos) =>
      When(x !in c.bound && x !in Machine.BUILTINS, Diag(pos, Unbound))
      + When(x in moved && x !in Machine.BUILTINS && !inTy, Diag(pos, MovedOut))
    case Move(x, pos) =>
      if x !in c.bound then [Diag(pos, Unbound)]
      else When(x in moved && !inTy, Diag(pos, MovedOut))
    case Cap(cap, _) =>
      if WordAt(c, nodes, i + 1, "rq") && !inTy then Require(c, cap, nodes[i + 1].pos, known) else []
    case _ => []
  }

  function Walk(c: Ctx, nodes: seq<Node>, i: nat, known: Known, inTy: bool, moved: set<string>): seq<Finding>
    requires i <= |nodes|
    decreases nodes, 2 * (|nodes| - i) + 1
  {
    if i == |nodes| then []
    else
      (if known.Exact? then [Runs(nodes[i].pos, known.caps)] else [])
      + LeafFindings(c, nodes, i, known, inTy, moved)
      + BlockFindings(c, nodes, i, known, inTy, moved)
      + Walk(c, nodes, i + 1, known, inTy, MovedAfter(c, nodes[i], moved))
  }

  /** What the block literal at i is reported for, by how it will be consumed. */
  function BlockFindings(c: Ctx, nodes: seq<Node>, i: nat, known: Known, inTy: bool, moved: set<string>): seq<Finding>
    requires i < |nodes|
    decreases nodes, 2 * (|nodes| - i)
  {
    if !nodes[i].Blk? then []
    else
      var use := UseOf(c, nodes, i);
      if use == Arms then
        var onResult := WordAt(c, nodes, i - 1, "ty") && BlkAt(nodes, i - 2);
        ArmsFindings(c, nodes[i].nodes, nodes[i].pos, known, inTy, onResult, moved)
      else
        Walk(c, nodes[i].nodes, 0, InnerKnown(nodes, i, use, known), inTy || use == Try, InnerMoved(c, use, moved))
  }

  function ArmsFindings(c: Ctx, arms: seq<Node>, pos: nat, known: Known, inTy: bool, onResult: bool,
                        moved: set<string>): seq<Finding>
    decreases arms, 2 * |arms| + 3
  {
    if |arms| % 2 != 0 then [Diag(pos, BadArms)]
    else
      var seen := Labels(arms, 0);
      ArmFindings(c, arms, 0, pos, known, inTy, moved)
      + When(onResult && !("any" in seen || "res" in seen || {"ok", "err"} <= seen),
             Diag(pos, NotExhaustive))
  }

  function ArmFindings(c: Ctx, arms: seq<Node>, j: nat, pos: nat, known: Known, inTy: bool,
                       moved: set<string>): seq<Finding>
    requires j <= |arms| && |arms| % 2 == 0 && j % 2 == 0
    decreases arms, 2 * (|arms| - j) + 2
  {
    if j == |arms| then []
    else if !arms[j].Blk? || !arms[j + 1].Blk? then
      [Diag(pos, BadArms)] + ArmFindings(c, arms, j + 2, pos, known, inTy, moved)
    else
      When(Label(arms[j]) == "", Diag(arms[j].pos, BadArms))
      + Walk(c, arms[j + 1].nodes, 0, known, inTy, moved)
      + ArmFindings(c, arms, j + 2, pos, known, inTy, moved)
  }

  /** The label of a pattern block; "" when it is malformed. */
  function Label(pat: Node): string
    requires pat.Blk?
  {
    if |pat.nodes| != 1 then ""
    else
      match pat.nodes[0]
      case Name(x, _) =>
        if x == "any" || x == "ok" || x == "err" || x in Machine.PATTERN_TYPES then x else ""
      case Int(_, _) => "lit"
      case Flt(_, _) => "lit"
      case Str(_, _) => "lit"
      case _ => ""
  }

  function Labels(arms: seq<Node>, j: nat): set<string>
    requires j <= |arms| && |arms| % 2 == 0 && j % 2 == 0
    decreases |arms| - j
  {
    if j == |arms| then {}
    else if !arms[j].Blk? || !arms[j + 1].Blk? then Labels(arms, j + 2)
    else (if Label(arms[j]) == "" then {} else {Label(arms[j])}) + Labels(arms, j + 2)
  }

  function DiagsOf(fs: seq<Finding>): seq<Finding> {
    if fs == [] then []
    else (if fs[0].Diag? then [fs[0]] else []) + DiagsOf(fs[1..])
  }

  lemma {:induction false} DiagsOfSum(a: seq<Finding>, b: seq<Finding>)
    ensures DiagsOf(a + b) == DiagsOf(a) + DiagsOf(b)
  {
    if a == [] {
      assert a + b == b;
    } else {
      assert (a + b)[1..] == a[1..] + b;
      DiagsOfSum(a[1..], b);
    }
  }

  lemma {:induction false} DiagsOfIn(fs: seq<Finding>, f: Finding)
    ensures f in DiagsOf(fs) <==> f.Diag? && f in fs
  {
    if fs != [] {
      DiagsOfIn(fs[1..], f);
    }
  }

  /** Everything found in a program, which starts with no authority at all. */
  function Findings(program: seq<Node>, inherit: bool): seq<Finding> {
    Walk(Context(program, inherit), program, 0, Exact({}), false, {})
  }

  /** The checker's answer. */
  function Check(program: seq<Node>): seq<Finding> {
    DiagsOf(Findings(program, true))
  }
}
