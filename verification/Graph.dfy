// The graph of zown/store.py and its text form: a line for every vertex, then one
// for every edge, each in the order they came.

module Graphs {

  datatype Result<T> = Ok(value: T) | Err(code: string)

  datatype Edge = Edge(src: string, lab: string, dst: string)

  datatype Content = Content(verts: seq<string>, edges: seq<Edge>)

  const EMPTY := Content([], [])

  /** The characters that Python takes for white space. */
  predicate Space(c: char) {
    var k := c as int;
    || 9 <= k <= 13 || 28 <= k <= 32 || k == 0x85 || k == 0xA0 || k == 0x1680 || 0x2000 <= k <= 0x200A
    || k == 0x2028 || k == 0x2029 || k == 0x202F || k == 0x205F || k == 0x3000
  }

  /** Those of them that end a line. */
  predicate Break(c: char) {
    var k := c as int;
    10 <= k <= 13 || 28 <= k <= 30 || k == 0x85 || k == 0x2028 || k == 0x2029
  }

  predicate Word(s: string) {
    s != "" && forall i :: 0 <= i < |s| ==> !Space(s[i])
  }

  // ---- growing

  function WithVert(g: Content, x: string): Content {
    if x in g.verts then g else g.(verts := g.verts + [x])
  }

  function WithEdge(g: Content, e: Edge): Content {
    var h := WithVert(WithVert(g, e.src), e.dst);
    if e in h.edges then h else h.(edges := h.edges + [e])
  }

  ghost predicate Distinct<T>(s: seq<T>) {
    forall i, j :: 0 <= i < j < |s| ==> s[i] != s[j]
  }

  /** Words only, nothing twice, and both ends of every edge are there. */
  ghost predicate Tidy(g: Content) {
    && Distinct(g.verts) && Distinct(g.edges)
    && (forall x | x in g.verts :: Word(x))
    && (forall e | e in g.edges :: Word(e.lab) && e.src in g.verts && e.dst in g.verts)
  }

  lemma VertTidy(g: Content, x: string)
    requires Tidy(g) && Word(x)
    ensures Tidy(WithVert(g, x)) && x in WithVert(g, x).verts
    ensures forall y | y in g.verts :: y in WithVert(g, x).verts
  {
  }

  lemma EdgeTidy(g: Content, e: Edge)
    requires Tidy(g) && Word(e.src) && Word(e.lab) && Word(e.dst)
    ensures Tidy(WithEdge(g, e)) && e in WithEdge(g, e).edges
  {
    VertTidy(g, e.src);
    VertTidy(WithVert(g, e.src), e.dst);
  }

  // ---- text

  function VertLine(x: string): string {
    "v" + " " + x
  }

  function EdgeLine(e: Edge): string {
    "e" + " " + (e.src + " " + (e.lab + " " + e.dst))
  }

  function Lines(g: Content): (lines: seq<string>)
    ensures |lines| == |g.verts| + |g.edges|
  {
    seq(|g.verts|, i requires 0 <= i < |g.verts| => VertLine(g.verts[i]))
    + seq(|g.edges|, i requires 0 <= i < |g.edges| => EdgeLine(g.edges[i]))
  }

  /** Lines, each with its end. */
  function Text(lines: seq<string>): string {
    if lines == [] then "" else lines[0] + "\n" + Text(lines[1..])
  }

  /** Lines with line ends between them. */
  function Join(lines: seq<string>): string {
    if lines == [] then ""
    else if |lines| == 1 then lines[0]
    else lines[0] + "\n" + Join(lines[1..])
  }

  lemma {:induction false} JoinText(lines: seq<string>)
    requires lines != []
    ensures Join(lines) + "\n" == Text(lines)
  {
    if |lines| == 1 {
      assert Text(lines[1..]) == "";
    } else {
      JoinText(lines[1..]);
      assert lines[0] + "\n" + Join(lines[1..]) + "\n" == lines[0] + "\n" + (Join(lines[1..]) + "\n");
    }
  }

  lemma {:induction false} TextSum(a: seq<string>, b: seq<string>)
    ensures Text(a + b) == Text(a) + Text(b)
  {
    if a == [] {
      assert a + b == b;
    } else {
      assert (a + b)[1..] == a[1..] + b;
      TextSum(a[1..], b);
      assert a[0] + "\n" + (Text(a[1..]) + Text(b)) == a[0] + "\n" + Text(a[1..]) + Text(b);
    }
  }

  function Snapshot(g: Content): string {
    Text(Lines(g))
  }

  /** str.split with one separator. */
  function Split(s: string, c: char): (parts: seq<string>)
    ensures |parts| >= 1
  {
    if s == "" then [""]
    else if s[0] == c then [""] + Split(s[1..], c)
    else
      var rest := Split(s[1..], c);
      [[s[0]] + rest[0]] + rest[1..]
  }

  /** str.splitlines: every kind of line end counts, and the last one opens no line. */
  function SplitLines(s: string): (lines: seq<string>)
    ensures s != "" ==> lines != []
  {
    if s == "" then []
    else if |s| > 1 && s[0] == '\r' && s[1] == '\n' then [""] + SplitLines(s[2..])
    else if Break(s[0]) then [""] + SplitLines(s[1..])
    else if |s| == 1 then [s]
    else
      var rest := SplitLines(s[1..]);
      [[s[0]] + rest[0]] + rest[1..]
  }

  lemma {:induction false} SplitFirst(a: string, c: char, b: string)
    requires c !in a
    ensures Split(a + [c] + b, c) == [a] + Split(b, c)
  {
    var s := a + [c] + b;
    if a == "" {
      assert s[1..] == b;
    } else {
      assert s[1..] == a[1..] + [c] + b;
      SplitFirst(a[1..], c, b);
      assert a == [a[0]] + a[1..];
    }
  }

  lemma {:induction false} SplitNone(a: string, c: char)
    requires c !in a
    ensures Split(a, c) == [a]
  {
    if a != "" {
      SplitNone(a[1..], c);
      assert a == [a[0]] + a[1..];
    }
  }

  /** Splitting joined lines gives the lines. */
  lemma {:induction false} SplitJoin(lines: seq<string>)
    requires lines != [] && forall i :: 0 <= i < |lines| ==> '\n' !in lines[i]
    ensures Split(Join(lines), '\n') == lines
  {
    if |lines| == 1 {
      SplitNone(lines[0], '\n');
    } else {
      SplitFirst(lines[0], '\n', Join(lines[1..]));
      SplitJoin(lines[1..]);
      assert lines == [lines[0]] + lines[1..];
    }
  }

  predicate OneLine(s: string) {
    forall i :: 0 <= i < |s| ==> !Break(s[i])
  }

  lemma {:induction false} FirstLine(a: string, b: string)
    requires OneLine(a)
    ensures SplitLines(a + "\n" + b) == [a] + SplitLines(b)
  {
    var s := a + "\n" + b;
    if a == "" {
      assert s[1..] == b;
    } else {
      assert s[1..] == a[1..] + "\n" + b;
      assert !Break(a[0]);
      FirstLine(a[1..], b);
      assert a == [a[0]] + a[1..];
    }
  }

  lemma {:induction false} LinesOfText(lines: seq<string>)
    requires forall i :: 0 <= i < |lines| ==> OneLine(lines[i])
    ensures SplitLines(Text(lines)) == lines
  {
    if lines != [] {
      FirstLine(lines[0], Text(lines[1..]));
      LinesOfText(lines[1..]);
      assert lines == [lines[0]] + lines[1..];
    }
  }

  // ---- reading

  function ParseLine(g: Content, line: string): Result<Content> {
    var parts := Split(line, ' ');
    if |parts| == 2 && parts[0] == "v" && Word(parts[1]) then Ok(WithVert(g, parts[1]))
    else if |parts| == 4 && parts[0] == "e" && Word(parts[1]) && Word(parts[2]) && Word(parts[3]) then
      Ok(WithEdge(g, Edge(parts[1], parts[2], parts[3])))
    else Err("TYPE_MISMATCH")
  }

  function ParseLines(g: Content, lines: seq<string>): Result<Content>
    decreases |lines|
  {
    if lines == [] then Ok(g)
    else
      match ParseLine(g, lines[0])
      case Ok(h) => ParseLines(h, lines[1..])
      case Err(code) => Err(code)
  }

  function Parse(text: string): Result<Content> {
    if text == "" then Ok(EMPTY)
    else if text[|text| - 1] != '\n' then Err("TYPE_MISMATCH")
    else ParseLines(EMPTY, SplitLines(text))
  }

  /** What is read is in order, whatever the text. */
  lemma ParseTidy(text: string)
    ensures Parse(text).Ok? ==> Tidy(Parse(text).value)
  {
    if text != "" {
      ParsedTidy(EMPTY, SplitLines(text));
    }
  }

  lemma {:induction false} ParsedTidy(g: Content, lines: seq<string>)
    requires Tidy(g)
    ensures ParseLines(g, lines).Ok? ==> Tidy(ParseLines(g, lines).value)
    decreases |lines|
  {
    if lines != [] {
      var parts := Split(lines[0], ' ');
      if ParseLine(g, lines[0]).Ok? {
        if |parts| == 2 {
          VertTidy(g, parts[1]);
        } else {
          EdgeTidy(g, Edge(parts[1], parts[2], parts[3]));
        }
        ParsedTidy(ParseLine(g, lines[0]).value, lines[1..]);
      }
    }
  }

  lemma ParseCode(text: string)
    ensures Parse(text) != Err("")
  {
    ParsedCode(EMPTY, SplitLines(text));
  }

  lemma {:induction false} ParsedCode(g: Content, lines: seq<string>)
    ensures ParseLines(g, lines) != Err("")
    decreases |lines|
  {
    if lines != [] && ParseLine(g, lines[0]).Ok? {
      ParsedCode(ParseLine(g, lines[0]).value, lines[1..]);
    }
  }

  lemma WordPlain(s: string)
    requires Word(s)
    ensures ' ' !in s && '\n' !in s && OneLine(s)
  {
    if i :| 0 <= i < |s| && (s[i] == ' ' || s[i] == '\n') {
      assert Space(s[i]);
    }
  }

  lemma VertLineBack(g: Content, x: string)
    requires Word(x)
    ensures ParseLine(g, VertLine(x)) == Ok(WithVert(g, x)) && OneLine(VertLine(x)) && '\n' !in VertLine(x)
  {
    WordPlain(x);
    SplitFirst("v", ' ', x);
    SplitNone(x, ' ');
  }

  lemma EdgeParts(e: Edge)
    requires Word(e.src) && Word(e.lab) && Word(e.dst)
    ensures Split(EdgeLine(e), ' ') == ["e", e.src, e.lab, e.dst]
  {
    WordPlain(e.src);
    WordPlain(e.lab);
    WordPlain(e.dst);
    SplitFirst("e", ' ', e.src + " " + (e.lab + " " + e.dst));
    SplitFirst(e.src, ' ', e.lab + " " + e.dst);
    SplitFirst(e.lab, ' ', e.dst);
    SplitNone(e.dst, ' ');
  }

  lemma EdgeLineBack(g: Content, e: Edge)
    requires Word(e.src) && Word(e.lab) && Word(e.dst)
    ensures ParseLine(g, EdgeLine(e)) == Ok(WithEdge(g, e)) && OneLine(EdgeLine(e)) && '\n' !in EdgeLine(e)
  {
    WordPlain(e.src);
    WordPlain(e.lab);
    WordPlain(e.dst);
    EdgeParts(e);
  }

  lemma {:induction false} EdgesBack(g: Content, i: nat)
    requires Tidy(g) && i <= |g.edges|
    ensures ParseLines(g.(edges := g.edges[..i]), Lines(g)[|g.verts| + i..]) == Ok(g)
    decreases |g.edges| - i
  {
    var lines, n := Lines(g), |g.verts|;
    if i == |g.edges| {
      assert g.edges[..i] == g.edges;
    } else {
      var now, e := g.(edges := g.edges[..i]), g.edges[i];
      assert e in g.edges;
      EdgeLineBack(now, e);
      EdgeAdded(g, i, now, e);
      assert lines[n + i..][0] == EdgeLine(e) && lines[n + i..][1..] == lines[n + (i + 1)..];
      EdgesBack(g, i + 1);
    }
  }

  lemma EdgeAdded(g: Content, i: nat, now: Content, e: Edge)
    requires Tidy(g) && i < |g.edges| && now == g.(edges := g.edges[..i]) && e == g.edges[i]
    ensures WithEdge(now, e) == g.(edges := g.edges[..i + 1])
  {
    assert e in g.edges;
    assert g.edges[..i + 1] == g.edges[..i] + [e];
  }

  lemma {:induction false} VertsBack(g: Content, i: nat)
    requires Tidy(g) && i <= |g.verts|
    ensures ParseLines(Content(g.verts[..i], []), Lines(g)[i..]) == Ok(g)
    decreases |g.verts| - i
  {
    var lines := Lines(g);
    if i == |g.verts| {
      EdgesBack(g, 0);
      assert g.verts[..i] == g.verts && g.edges[..0] == [];
    } else {
      var x := g.verts[i];
      assert x in g.verts;
      VertLineBack(Content(g.verts[..i], []), x);
      assert lines[i..][0] == VertLine(x) && lines[i..][1..] == lines[i + 1..];
      assert g.verts[..i + 1] == g.verts[..i] + [x];
      VertsBack(g, i + 1);
    }
  }

  lemma LinesPlain(g: Content)
    requires Tidy(g)
    ensures forall i :: 0 <= i < |Lines(g)| ==> OneLine(Lines(g)[i]) && '\n' !in Lines(g)[i]
    ensures forall i :: 0 <= i < |Lines(g)| ==> Lines(g)[i] != "" && Lines(g)[i][0] in {'v', 'e'}
  {
    forall i | 0 <= i < |Lines(g)|
      ensures OneLine(Lines(g)[i]) && '\n' !in Lines(g)[i] && Lines(g)[i] != "" && Lines(g)[i][0] in {'v', 'e'}
    {
      if i < |g.verts| {
        assert g.verts[i] in g.verts;
        VertLineBack(g, g.verts[i]);
      } else {
        var e := g.edges[i - |g.verts|];
        assert e in g.edges;
        EdgeLineBack(g, e);
      }
    }
  }

  /** Round trip: the text of a graph reads as the graph, order included. */
  lemma SnapshotReads(g: Content)
    requires Tidy(g)
    ensures Parse(Snapshot(g)) == Ok(g)
  {
    var lines := Lines(g);
    if lines == [] {
      assert g == EMPTY;
    } else {
      LinesPlain(g);
      LinesOfText(lines);
      JoinText(lines);
      VertsBack(g, 0);
      assert g.verts[..0] == [] && lines[0..] == lines;
    }
  }

  // ---- the object

  class Graph {
    var verts: seq<string>
    var edges: seq<Edge>

    function View(): Content
      reads this
    {
      Content(verts, edges)
    }

    constructor ()
      ensures View() == EMPTY
    {
      verts, edges := [], [];
    }

    method AddVert(name: string)
      modifies this
      ensures View() == WithVert(old(View()), name)
    {
      if name !in verts {
        verts := verts + [name];
      }
    }

    method AddEdge(src: string, lab: string, dst: string)
      modifies this
      ensures View() == WithEdge(old(View()), Edge(src, lab, dst))
    {
      AddVert(src);
      AddVert(dst);
      var edge := Edge(src, lab, dst);
      if edge !in edges {
        edges := edges + [edge];
      }
    }

    method Snapshot() returns (text: string)
      ensures text == Text(Lines(View()))
    {
      var lines: seq<string> := [];
      for i := 0 to |verts|
        invariant |lines| == i && forall j :: 0 <= j < i ==> lines[j] == VertLine(verts[j])
      {
        lines := lines + [VertLine(verts[i])];
      }
      for i := 0 to |edges|
        invariant |lines| == |verts| + i
        invariant forall j :: 0 <= j < |verts| ==> lines[j] == VertLine(verts[j])
        invariant forall j :: 0 <= j < i ==> lines[|verts| + j] == EdgeLine(edges[j])
      {
        lines := lines + [EdgeLine(edges[i])];
      }
      assert lines == Lines(View());
      if lines == [] {
        return "";
      }
      JoinText(lines);
      text := Join(lines) + "\n";
    }
  }

  /** Reads a snapshot line by line into a new graph. */
  method ReadSnapshot(text: string) returns (r: Result<Graph>)
    ensures r.Ok? == Parse(text).Ok?
    ensures match r
      case Ok(graph) => fresh(graph) && Parse(text) == Ok(graph.View())
      case Err(code) => Parse(text) == Err(code)
  {
    var graph := new Graph();
    if text == "" {
      return Ok(graph);
    }
    if text[|text| - 1] != '\n' {
      return Err("TYPE_MISMATCH");
    }
    var lines := SplitLines(text);
    for i := 0 to |lines|
      invariant Parse(text) == ParseLines(graph.View(), lines[i..])
    {
      var parts := Split(lines[i], ' ');
      assert lines[i..][0] == lines[i] && lines[i..][1..] == lines[i + 1..];
      if |parts| == 2 && parts[0] == "v" && Word(parts[1]) {
        graph.AddVert(parts[1]);
      } else if |parts| == 4 && parts[0] == "e" && Word(parts[1]) && Word(parts[2]) && Word(parts[3]) {
        graph.AddEdge(parts[1], parts[2], parts[3]);
      } else {
        return Err("TYPE_MISMATCH");
      }
    }
    r := Ok(graph);
  }
}
