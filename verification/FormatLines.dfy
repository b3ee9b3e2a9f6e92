// Where the formatter breaks lines: between two tokens that follow each other, it
// breaks exactly if they began on different lines or the first is a comment.

module FormatLines {
  import opened Lexer
  import opened Format

  /** The second token follows the first on its line. */
  predicate Together(a: Token, b: Token) {
    a.kind != COMMENT && a.line == b.line
  }

  predicate Unbroken(line: Tokens) {
    line != [] && forall i :: 0 <= i < |line| - 1 ==> Together(line[i], line[i + 1])
  }

  /** Each line is unbroken, and between two lines there has to be a break. */
  predicate Broken(lines: seq<Tokens>) {
    && (forall i :: 0 <= i < |lines| ==> Unbroken(lines[i]))
    && (forall i :: 0 <= i < |lines| - 1 ==> !Together(lines[i][|lines[i]| - 1], lines[i + 1][0]))
  }

  /** The line being filled is unbroken and has no comment, and the next token joins
      it exactly if it is on the same line. */
  ghost predicate Filling(f: Fold) {
    && Broken(Closed(f))
    && (f.buf == [] <==> f.cur == Nowhere)
    && (f.buf != [] ==> f.buf[|f.buf| - 1].kind != COMMENT && f.cur == On(f.buf[|f.buf| - 1].line))
    && (f.buf == [] && f.lines != [] ==> Ends(f.lines).kind == COMMENT)
  }

  ghost function Ends(lines: seq<Tokens>): Token
    requires lines != [] && lines[|lines| - 1] != []
  {
    var last := lines[|lines| - 1];
    last[|last| - 1]
  }

  lemma BrokenMore(lines: seq<Tokens>, line: Tokens)
    requires Broken(lines) && Unbroken(line) && (lines != [] ==> !Together(Ends(lines), line[0]))
    ensures Broken(lines + [line])
  {
  }

  lemma BrokenLess(lines: seq<Tokens>, line: Tokens)
    requires Broken(lines + [line])
    ensures Broken(lines) && Unbroken(line) && (lines != [] ==> !Together(Ends(lines), line[0]))
  {
    var all := lines + [line];
    assert all[|lines|] == line;
    forall i | 0 <= i < |lines|
      ensures Unbroken(lines[i])
    {
      assert all[i] == lines[i];
    }
    forall i | 0 <= i < |lines| - 1
      ensures !Together(lines[i][|lines[i]| - 1], lines[i + 1][0])
    {
      assert all[i] == lines[i] && all[i + 1] == lines[i + 1];
    }
    if lines != [] {
      assert all[|lines| - 1] == lines[|lines| - 1];
    }
  }

  lemma UnbrokenMore(line: Tokens, t: Token)
    requires Unbroken(line) && Together(line[|line| - 1], t)
    ensures Unbroken(line + [t])
  {
  }

  lemma Ended(lines: seq<Tokens>, line: Tokens)
    requires Broken(lines + [line]) && line != [] && line[|line| - 1].kind == COMMENT
    ensures Filling(Fold(lines + [line], [], Nowhere))
  {
  }

  lemma Held(lines: seq<Tokens>, line: Tokens, at: nat)
    requires Broken(lines + [line]) && line != [] && line[|line| - 1].kind != COMMENT && line[|line| - 1].line == at
    ensures Filling(Fold(lines, line, On(at)))
  {
  }

  /** A token that joins the line being filled. */
  lemma Joins(lines: seq<Tokens>, buf: Tokens, t: Token)
    requires Broken(lines + [buf]) && buf != [] && Together(buf[|buf| - 1], t)
    ensures Broken(lines + [buf + [t]])
  {
    BrokenLess(lines, buf);
    UnbrokenMore(buf, t);
    BrokenMore(lines, buf + [t]);
  }

  lemma StepFills(f: Fold, t: Token)
    requires Filling(f)
    ensures Filling(Step(f, t))
  {
    if f.buf != [] && f.cur == On(t.line) {
      Joins(f.lines, f.buf, t);
      if t.kind == COMMENT {
        Ended(f.lines, f.buf + [t]);
      } else {
        Held(f.lines, f.buf + [t], t.line);
      }
    } else {
      Starts(f, t);
    }
  }

  /** A token that starts a line. */
  lemma Starts(f: Fold, t: Token)
    requires Filling(f) && (f.buf == [] || f.cur != On(t.line))
    ensures Filling(Step(f, t))
  {
    var lines := Closed(f);
    BrokenMore(lines, [t]);
    if t.kind == COMMENT {
      Ended(lines, [t]);
    } else {
      Held(lines, [t], t.line);
    }
  }

  lemma {:induction false} StepsFill(f: Fold, toks: Tokens)
    requires Filling(f)
    ensures Filling(Steps(f, toks))
    decreases |toks|
  {
    if toks != [] {
      StepFills(f, toks[0]);
      StepsFill(Step(f, toks[0]), toks[1..]);
    }
  }

  /** Tokens of one line stay on one line, up to a comment; others do not share one. */
  lemma LinesBroken(toks: Tokens)
    ensures Broken(Lines(toks))
  {
    StepsFill(START, toks);
  }

  /** There is no other way to break these tokens so. */
  lemma {:induction false} BreaksUnique(a: seq<Tokens>, b: seq<Tokens>)
    requires Broken(a) && Broken(b) && Flat(a) == Flat(b)
    ensures a == b
  {
    FlatNone(a);
    FlatNone(b);
    if a != [] && b != [] {
      FirstLength(a, b);
      FirstLength(b, a);
      assert Flat(a) == a[0] + Flat(a[1..]) && Flat(b) == b[0] + Flat(b[1..]);
      assert a[0] == Flat(a)[..|a[0]|] && b[0] == Flat(b)[..|b[0]|];
      assert Flat(a[1..]) == Flat(a)[|a[0]|..] && Flat(b[1..]) == Flat(b)[|b[0]|..];
      BrokenRest(a);
      BrokenRest(b);
      BreaksUnique(a[1..], b[1..]);
      assert a == [a[0]] + a[1..] && b == [b[0]] + b[1..];
    }
  }

  lemma BrokenRest(a: seq<Tokens>)
    requires Broken(a) && a != []
    ensures Broken(a[1..])
  {
    var r := a[1..];
    forall i | 0 <= i < |r|
      ensures Unbroken(r[i])
    {
      assert r[i] == a[i + 1];
    }
    forall i | 0 <= i < |r| - 1
      ensures !Together(r[i][|r[i]| - 1], r[i + 1][0])
    {
      assert r[i] == a[i + 1] && r[i + 1] == a[i + 2];
    }
  }

  lemma FlatNone(a: seq<Tokens>)
    requires Broken(a)
    ensures Flat(a) == [] <==> a == []
  {
  }

  lemma InFirst(a: seq<Tokens>, n: nat)
    requires Broken(a) && a != [] && 0 < n < |a[0]|
    ensures n < |Flat(a)| && Together(Flat(a)[n - 1], Flat(a)[n])
  {
    assert Flat(a) == a[0] + Flat(a[1..]);
    assert Together(a[0][n - 1], a[0][n - 1 + 1]);
  }

  lemma AfterFirst(b: seq<Tokens>, n: nat)
    requires Broken(b) && b != [] && n == |b[0]|
    ensures 0 < n <= |Flat(b)| && (n < |Flat(b)| ==> !Together(Flat(b)[n - 1], Flat(b)[n]))
  {
    assert Flat(b) == b[0] + Flat(b[1..]);
    if |b| > 1 {
      assert b[1..][0] == b[1];
      assert Flat(b[1..]) == b[1] + Flat(b[1..][1..]);
    }
  }

  /** The first line cannot go on past a break. */
  lemma FirstLength(a: seq<Tokens>, b: seq<Tokens>)
    requires Broken(a) && Broken(b) && Flat(a) == Flat(b) && a != [] && b != []
    ensures |a[0]| <= |b[0]|
  {
    AfterFirst(b, |b[0]|);
    if |a[0]| > |b[0]| {
      InFirst(a, |b[0]|);
    }
  }
}
