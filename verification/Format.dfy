// The formatter: one space between the tokens of a line, no blank lines, comments
// where they were. It keeps the tokens, and formatting again changes nothing.

module Format {
  import opened Lexer

  type Tokens = seq<Token>

  /** The lines finished so far, the line being filled, and where that began. */
  datatype Fold = Fold(lines: seq<Tokens>, buf: Tokens, cur: Where)
  datatype Where = Nowhere | On(line: nat)

  function Closed(f: Fold): seq<Tokens> {
    if f.buf == [] then f.lines else f.lines + [f.buf]
  }

  function Step(f: Fold, t: Token): Fold {
    if t.kind == COMMENT then
      if f.buf != [] && f.cur == On(t.line) then Fold(f.lines + [f.buf + [t]], [], Nowhere)
      else Fold(Closed(f) + [[t]], [], Nowhere)
    else if f.cur == Nowhere then Fold(f.lines, f.buf + [t], On(t.line))
    else if f.cur != On(t.line) then Fold(Closed(f), [t], On(t.line))
    else Fold(f.lines, f.buf + [t], f.cur)
  }

  function Steps(f: Fold, toks: Tokens): Fold
    decreases |toks|
  {
    if toks == [] then f else Steps(Step(f, toks[0]), toks[1..])
  }

  const START: Fold := Fold([], [], Nowhere)

  /** The tokens in the lines of the result. */
  function Lines(toks: Tokens): seq<Tokens> {
    Closed(Steps(START, toks))
  }

  function Join(sep: string, parts: seq<string>): string {
    if parts == [] then "" else if |parts| == 1 then parts[0] else parts[0] + sep + Join(sep, parts[1..])
  }

  function Lexemes(line: Tokens): seq<string> {
    seq(|line|, i requires 0 <= i < |line| => line[i].text)
  }

  function Text(line: Tokens): string {
    Join(" ", Lexemes(line))
  }

  function Texts(lines: seq<Tokens>): seq<string> {
    seq(|lines|, i requires 0 <= i < |lines| => Text(lines[i]))
  }

  function Layout(lines: seq<Tokens>): string {
    Join("\n", Texts(lines)) + "\n"
  }

  predicate AllSpace(s: string) {
    forall i :: 0 <= i < |s| ==> IsSpace(s[i])
  }

  function FormatSource(src: string): Result<string> {
    match Lex(src, 1)
    case Err(code) => Err(code)
    case Ok(toks) =>
      if Lines(toks) == [] then Ok(if AllSpace(src) then "\n" else "") else Ok(Layout(Lines(toks)))
  }

  // ---- the loop

  lemma {:induction false} JoinSnoc(sep: string, parts: seq<string>, last: string)
    requires parts != []
    ensures Join(sep, parts + [last]) == Join(sep, parts) + sep + last
  {
    if |parts| > 1 {
      JoinSnoc(sep, parts[1..], last);
      assert (parts + [last])[1..] == parts[1..] + [last];
    } else {
      assert (parts + [last])[1..] == [last];
    }
  }

  lemma Snocs(lines: seq<Tokens>, buf: Tokens, t: Token)
    ensures Lexemes(buf + [t]) == Lexemes(buf) + [t.text] && Texts(lines + [buf]) == Texts(lines) + [Text(buf)]
    ensures buf != [] ==> Text(buf + [t]) == Text(buf) + " " + t.text
    ensures Lexemes([t]) == [t.text] && Text([t]) == t.text
  {
    assert Lexemes(buf + [t]) == Lexemes(buf) + [t.text];
    if buf != [] {
      JoinSnoc(" ", Lexemes(buf), t.text);
    }
  }

  lemma {:induction false} StepsSnoc(f: Fold, toks: Tokens, t: Token)
    ensures Steps(f, toks + [t]) == Step(Steps(f, toks), t)
    decreases |toks|
  {
    if toks == [] {
      assert [] + [t] == [t];
    } else {
      StepsSnoc(Step(f, toks[0]), toks[1..], t);
      assert (toks + [t])[1..] == toks[1..] + [t];
    }
  }

  /** What a comment does to the lines. */
  lemma CommentStep(f: Fold, t: Token)
    requires t.kind == COMMENT
    ensures var g := Step(f, t);
            && g.buf == [] && g.cur == Nowhere
            && Texts(g.lines) == if f.buf != [] && f.cur == On(t.line) then Texts(f.lines) + [Text(f.buf) + " " + t.text]
                                 else Texts(Closed(f)) + [t.text]
  {
    Snocs(f.lines, f.buf, t);
    Snocs(f.lines, f.buf + [t], t);
    Snocs(Closed(f), [t], t);
  }

  method FormatAll(src: string) returns (r: Result<string>)
    ensures r == FormatSource(src)
  {
    var lexer := new Cursor(src);
    var lexed := lexer.Tokens();
    assert src[0..] == src;
    if lexed.Err? {
      return Err(lexed.code);
    }
    var toks := lexed.value;
    var lines: seq<string>, buf: seq<string>, cur := [], [], Nowhere;
    ghost var f := START;
    for k := 0 to |toks|
      invariant f == Steps(START, toks[..k])
      invariant lines == Texts(f.lines) && buf == Lexemes(f.buf) && cur == f.cur
    {
      var t := toks[k];
      assert toks[..k + 1] == toks[..k] + [t];
      StepsSnoc(START, toks[..k], t);
      Snocs(f.lines, f.buf, t);
      if t.kind == COMMENT {
        CommentStep(f, t);
        if buf != [] && cur == On(t.line) {
          lines := lines + [Join(" ", buf) + " " + t.text];
        } else {
          lines := Flush(lines, buf) + [t.text];
        }
        buf, cur := [], Nowhere;
      } else {
        if cur != Nowhere && cur != On(t.line) {
          lines, buf := Flush(lines, buf), [];
        }
        buf, cur := buf + [t.text], On(t.line);
      }
      f := Step(f, t);
    }
    assert toks[..|toks|] == toks;
    FlushTexts(f);
    lines := Flush(lines, buf);
    r := Ok(if lines != [] then Join("\n", lines) + "\n" else if AllSpace(src) then "\n" else "");
  }

  /** The line being filled is finished, unless it is empty. */
  function Flush(lines: seq<string>, buf: seq<string>): seq<string> {
    if buf == [] then lines else lines + [Join(" ", buf)]
  }

  lemma FlushTexts(f: Fold)
    ensures Flush(Texts(f.lines), Lexemes(f.buf)) == Texts(Closed(f))
  {
  }

  // ---- what a line is

  function Flat(lines: seq<Tokens>): Tokens {
    if lines == [] then [] else lines[0] + Flat(lines[1..])
  }

  /** Its tokens started on one line of the source, and only the last of them may be
      a comment or go on to another line. */
  ghost predicate IsLine(g: Tokens) {
    && g != []
    && (forall i :: 0 <= i < |g| ==> g[i].line == g[0].line)
    && (forall i :: 0 <= i < |g| - 1 ==> g[i].kind != COMMENT && Newlines(g[i].text) == 0)
  }

  ghost predicate AreLines(lines: seq<Tokens>) {
    forall i :: 0 <= i < |lines| ==> IsLine(lines[i])
  }

  lemma {:induction false} FlatSnoc(lines: seq<Tokens>, g: Tokens)
    ensures Flat(lines + [g]) == Flat(lines) + g
  {
    if lines == [] {
      assert [] + [g] == [g] && [g][1..] == [];
      assert Flat([]) == [];
    } else {
      FlatSnoc(lines[1..], g);
      assert (lines + [g])[1..] == lines[1..] + [g];
    }
  }

  /** While folding, the line being filled has no comment yet. */
  ghost predicate Filling(f: Fold) {
    && AreLines(f.lines) && (f.buf == [] <==> f.cur == Nowhere)
    && (f.buf != [] ==> IsLine(f.buf) && f.cur == On(f.buf[0].line) && Last(f).kind != COMMENT)
  }

  function Last(f: Fold): Token
    requires f.buf != []
  {
    f.buf[|f.buf| - 1]
  }

  /** The token does not start before the end of the one before it. */
  ghost predicate After(f: Fold, t: Token) {
    f.buf != [] ==> Last(f).line + Newlines(Last(f).text) <= t.line
  }

  lemma IsLineSnoc(g: Tokens, t: Token)
    requires g != [] ==> IsLine(g) && g[|g| - 1].kind != COMMENT && g[0].line == t.line && Newlines(g[|g| - 1].text) == 0
    ensures IsLine(g + [t])
  {
    var h := g + [t];
    forall i | 0 <= i < |h| - 1
      ensures h[i].kind != COMMENT && Newlines(h[i].text) == 0
    {
      assert h[i] == g[i];
    }
  }

  lemma StepFilling(f: Fold, t: Token)
    requires Filling(f) && After(f, t)
    ensures Filling(Step(f, t)) && (Step(f, t).buf != [] ==> Last(Step(f, t)) == t)
  {
    if f.cur == On(t.line) {
      assert Last(f).line == f.buf[0].line;
      IsLineSnoc(f.buf, t);
    } else {
      assert IsLine([t]);
      assert AreLines(Closed(f));
    }
  }

  lemma StepFlat(f: Fold, t: Token)
    requires f.buf == [] <==> f.cur == Nowhere
    ensures Flat(Closed(Step(f, t))) == Flat(Closed(f)) + [t]
  {
    FlatSnoc(f.lines, f.buf);
    FlatSnoc(f.lines, f.buf + [t]);
    FlatSnoc(Closed(f), [t]);
    assert Flat(f.lines) + (f.buf + [t]) == Flat(f.lines) + f.buf + [t];
    assert [] + [t] == [t];
  }

  lemma FlowsRest(toks: Tokens, line: nat)
    requires Flows(toks, line) && toks != []
    ensures Flows(toks[1..], toks[0].line)
    ensures |toks| > 1 ==> toks[0].line + Newlines(toks[0].text) <= toks[1].line
  {
    var rest := toks[1..];
    forall i | 0 <= i < |rest| - 1
      ensures rest[i].line + Newlines(rest[i].text) <= rest[i + 1].line
    {
      assert rest[i] == toks[i + 1] && rest[i + 1] == toks[i + 1 + 1];
    }
  }

  lemma {:induction false} StepsFilling(f: Fold, toks: Tokens, line: nat)
    requires Filling(f) && Flows(toks, line) && (toks != [] ==> After(f, toks[0]))
    ensures Filling(Steps(f, toks))
    decreases |toks|
  {
    if toks != [] {
      StepFilling(f, toks[0]);
      FlowsRest(toks, line);
      StepsFilling(Step(f, toks[0]), toks[1..], toks[0].line);
    }
  }

  lemma {:induction false} StepsFlat(f: Fold, toks: Tokens)
    requires f.buf == [] <==> f.cur == Nowhere
    ensures Flat(Closed(Steps(f, toks))) == Flat(Closed(f)) + toks
    decreases |toks|
  {
    if toks != [] {
      StepFlat(f, toks[0]);
      StepsFlat(Step(f, toks[0]), toks[1..]);
      assert [toks[0]] + toks[1..] == toks;
    }
  }

  /** The lines hold the tokens, all of them and in order. */
  lemma LinesHold(toks: Tokens, line: nat)
    requires Flows(toks, line)
    ensures AreLines(Lines(toks)) && Flat(Lines(toks)) == toks
  {
    StepsFilling(START, toks, line);
    StepsFlat(START, toks);
    assert Flat(Closed(START)) == [];
  }

  ghost predicate WholeLines(lines: seq<Tokens>) {
    forall i :: 0 <= i < |lines| ==> IsLine(lines[i]) && AllWhole(lines[i])
  }

  lemma {:induction false} LinesWhole(lines: seq<Tokens>)
    requires AreLines(lines) && AllWhole(Flat(lines))
    ensures WholeLines(lines)
  {
    if lines != [] {
      var g, rest := lines[0], Flat(lines[1..]);
      assert forall i :: 0 <= i < |g| ==> Flat(lines)[i] == g[i];
      assert forall i :: 0 <= i < |rest| ==> Flat(lines)[|g| + i] == rest[i];
      LinesWhole(lines[1..]);
      assert forall i :: 1 <= i < |lines| ==> lines[i] == lines[1..][i - 1];
    }
  }

  // ---- lexing the layout

  function Moved(g: Tokens, line: nat): Tokens {
    seq(|g|, i requires 0 <= i < |g| => Token(g[i].kind, g[i].text, line))
  }

  /** The lines again, where the layout has them. */
  function Relined(lines: seq<Tokens>, line: nat): seq<Tokens> {
    if lines == [] then [] else [Moved(lines[0], line)] + Relined(lines[1..], line + Newlines(Text(lines[0])) + 1)
  }

  lemma LexOne(t: Token, r: string, line: nat, next: nat, whole: string)
    requires Whole(t) && Ends(t.kind, r) && next == line + Newlines(t.text) && whole == t.text + r
    ensures Lex(whole, line) == Prepend([Token(t.kind, t.text, line)], Lex(r, next))
  {
    ReadStable(t.text, r);
    assert t.text[..|t.text|] == t.text;
    assert whole[..|t.text|] == t.text && whole[|t.text|..] == r;
  }

  lemma Regroup<T>(a: seq<T>, b: seq<T>, c: seq<T>)
    ensures a + b + c == a + (b + c)
  {
  }

  /** A token, a space, the rest of a line, a newline, and what follows. */
  lemma Spaced(a: string, b: string, r: string)
    ensures a + " " + b + "\n" + r == a + (" " + (b + "\n" + r))
  {
    Regroup(a + " ", b, "\n");
    Regroup(a + " ", b + "\n", r);
    Regroup(a, " ", b + "\n" + r);
  }

  lemma LexSpace(c: char, r: string, line: nat, next: nat)
    requires IsSpace(c) && next == (if c == '\n' then line + 1 else line)
    ensures Lex([c] + r, line) == Lex(r, next)
  {
    assert ([c] + r)[1..] == r;
  }

  lemma TextCons(g: Tokens)
    requires g != []
    ensures Text(g) == if |g| == 1 then g[0].text else g[0].text + " " + Text(g[1..])
  {
    assert Lexemes(g)[1..] == Lexemes(g[1..]);
  }

  lemma LineRest(g: Tokens)
    requires IsLine(g) && AllWhole(g) && |g| > 1
    ensures IsLine(g[1..]) && AllWhole(g[1..]) && Newlines(g[0].text) == 0 && g[0].kind != COMMENT
    ensures Newlines(Text(g)) == Newlines(Text(g[1..]))
  {
    var h := g[1..];
    assert forall i :: 0 <= i < |h| ==> h[i] == g[i + 1];
    TextCons(g);
    NewlinesJoin(g[0].text + " ", Text(h));
    NewlinesJoin(g[0].text, " ");
  }

  /** A line and its end are read as its tokens, all on one line, and then the rest. */
  lemma {:induction false} LexLine(g: Tokens, r: string, line: nat, at: nat, whole: string)
    requires IsLine(g) && AllWhole(g) && at == line + Newlines(Text(g)) + 1 && whole == Text(g) + "\n" + r
    ensures Lex(whole, line) == Prepend(Moved(g, line), Lex(r, at))
    decreases |g|
  {
    TextCons(g);
    assert Whole(g[0]);
    if |g| == 1 {
      LexLast(g[0], r, line, at, whole);
      assert Moved(g, line) == [Token(g[0].kind, g[0].text, line)];
    } else {
      var tail := Text(g[1..]) + "\n" + r;
      LineRest(g);
      LexLine(g[1..], r, line, at, tail);
      Spaced(g[0].text, Text(g[1..]), r);
      LexMore(g, r, line, at, tail, whole);
    }
  }

  lemma LexLast(t: Token, r: string, line: nat, at: nat, whole: string)
    requires Whole(t) && at == line + Newlines(t.text) + 1 && whole == t.text + "\n" + r
    ensures Lex(whole, line) == Prepend([Token(t.kind, t.text, line)], Lex(r, at))
  {
    Regroup(t.text, "\n", r);
    LexOne(t, "\n" + r, line, at - 1, whole);
    LexSpace('\n', r, at - 1, at);
  }

  lemma MovedCons(g: Tokens, line: nat)
    requires g != []
    ensures Moved(g, line) == [Token(g[0].kind, g[0].text, line)] + Moved(g[1..], line)
  {
  }

  lemma LexMore(g: Tokens, r: string, line: nat, at: nat, tail: string, whole: string)
    requires |g| > 1 && Whole(g[0]) && g[0].kind != COMMENT && Newlines(g[0].text) == 0
    requires whole == g[0].text + (" " + tail)
    requires Lex(tail, line) == Prepend(Moved(g[1..], line), Lex(r, at))
    ensures Lex(whole, line) == Prepend(Moved(g, line), Lex(r, at))
  {
    var t := g[0];
    LexOne(t, " " + tail, line, line, whole);
    LexSpace(' ', tail, line, line);
    MovedCons(g, line);
    PrependMore(Token(t.kind, t.text, line), Moved(g[1..], line), Lex(r, at));
  }

  lemma PrependMore(t: Token, a: Tokens, r: Result<Tokens>)
    ensures Prepend([t], Prepend(a, r)) == Prepend([t] + a, r)
  {
    if r.Ok? {
      assert [t] + (a + r.value) == [t] + a + r.value;
    }
  }

  lemma LayoutCons(lines: seq<Tokens>)
    requires lines != []
    ensures Layout(lines) == Text(lines[0]) + "\n" + LayoutRest(lines[1..])
  {
    assert Texts(lines)[1..] == Texts(lines[1..]);
    if |lines| > 1 {
      var a, b := Text(lines[0]), Join("\n", Texts(lines[1..]));
      assert a + "\n" + b + "\n" == a + "\n" + (b + "\n");
    } else {
      assert Text(lines[0]) + "\n" + "" == Text(lines[0]) + "\n";
    }
  }

  lemma FlatRelined(lines: seq<Tokens>, line: nat, at: nat)
    requires lines != [] && at == line + Newlines(Text(lines[0])) + 1
    ensures Flat(Relined(lines, line)) == Moved(lines[0], line) + Flat(Relined(lines[1..], at))
  {
  }

  lemma WholeRest(lines: seq<Tokens>)
    requires WholeLines(lines) && lines != []
    ensures WholeLines(lines[1..]) && IsLine(lines[0]) && AllWhole(lines[0])
  {
    assert forall i :: 0 <= i < |lines[1..]| ==> lines[1..][i] == lines[i + 1];
  }

  /** The layout after the first line; after the last there is nothing. */
  function LayoutRest(lines: seq<Tokens>): string {
    if lines == [] then "" else Layout(lines)
  }

  lemma {:induction false} LexLayout(lines: seq<Tokens>, line: nat)
    requires WholeLines(lines)
    ensures Lex(LayoutRest(lines), line) == Ok(Flat(Relined(lines, line)))
    decreases |lines|
  {
    if lines != [] {
      var at := line + Newlines(Text(lines[0])) + 1;
      WholeRest(lines);
      LexLayout(lines[1..], at);
      LayoutCons(lines);
      LexLine(lines[0], LayoutRest(lines[1..]), line, at, Layout(lines));
      FlatRelined(lines, line, at);
    }
  }

  /** The same kinds and lexemes. */
  ghost predicate Same(a: Tokens, b: Tokens) {
    |a| == |b| && forall i :: 0 <= i < |a| ==> a[i].kind == b[i].kind && a[i].text == b[i].text
  }

  lemma SameJoin(a: Tokens, b: Tokens, c: Tokens, d: Tokens)
    requires Same(a, b) && Same(c, d)
    ensures Same(a + c, b + d)
  {
  }

  lemma {:induction false} RelinedSame(lines: seq<Tokens>, line: nat)
    ensures Same(Flat(Relined(lines, line)), Flat(lines)) && Texts(Relined(lines, line)) == Texts(lines)
    decreases |lines|
  {
    if lines != [] {
      var g, at := lines[0], line + Newlines(Text(lines[0])) + 1;
      var rest := Relined(lines[1..], at);
      RelinedSame(lines[1..], at);
      SameJoin(Moved(g, line), g, Flat(rest), Flat(lines[1..]));
      assert Lexemes(Moved(g, line)) == Lexemes(g);
      assert Texts([Moved(g, line)] + rest) == [Text(g)] + Texts(rest);
      assert Texts(lines) == [Text(g)] + Texts(lines[1..]);
    }
  }

  // ---- the lines of a layout are found again

  lemma {:induction false} StepsJoin(f: Fold, a: Tokens, b: Tokens)
    ensures Steps(f, a + b) == Steps(Steps(f, a), b)
    decreases |a|
  {
    if a == [] {
      assert a + b == b;
    } else {
      StepsJoin(Step(f, a[0]), a[1..], b);
      assert (a + b)[1..] == a[1..] + b;
    }
  }

  /** A line is over, or it is the one being filled. */
  ghost predicate Ended(f: Fold, line: nat) {
    f.cur == (if f.buf == [] then Nowhere else On(line))
  }

  /** The rest of a line joins what there is of it. */
  lemma {:induction false} StepsRest(f: Fold, g: Tokens, k: nat)
    requires IsLine(g) && 0 < k <= |g| && f.cur == On(g[0].line) && f.buf == g[..k]
    requires g[k - 1].kind != COMMENT
    ensures Closed(Steps(f, g[k..])) == f.lines + [g] && Ended(Steps(f, g[k..]), g[0].line)
    decreases |g| - k
  {
    if k == |g| {
      assert g[..k] == g;
    } else {
      assert g[k..][1..] == g[k + 1..] && g[..k] + [g[k]] == g[..k + 1];
      if g[k].kind == COMMENT {
        assert g[k + 1..] == [] && g[..k + 1] == g;
      } else {
        StepsRest(Step(f, g[k]), g, k + 1);
      }
    }
  }

  /** A line that starts elsewhere than the one before is a line of its own. */
  lemma StepsLine(f: Fold, g: Tokens)
    requires IsLine(g) && (f.buf == [] <==> f.cur == Nowhere) && f.cur != On(g[0].line)
    ensures Closed(Steps(f, g)) == Closed(f) + [g] && Ended(Steps(f, g), g[0].line)
  {
    var t := g[0];
    assert g[..1] == [t] && [] + [t] == [t];
    if t.kind == COMMENT {
      assert |g| == 1 && g == [t] && g[1..] == [];
    } else {
      StepsRest(Step(f, t), g, 1);
    }
  }

  lemma {:induction false} StepsLayout(f: Fold, lines: seq<Tokens>, line: nat)
    requires AreLines(lines) && (f.buf == [] <==> f.cur == Nowhere) && (f.cur != Nowhere ==> f.cur.line < line)
    ensures Closed(Steps(f, Flat(Relined(lines, line)))) == Closed(f) + Relined(lines, line)
    decreases |lines|
  {
    if lines != [] {
      var g, at := Moved(lines[0], line), line + Newlines(Text(lines[0])) + 1;
      var rest := Relined(lines[1..], at);
      assert IsLine(lines[0]);
      MovedLine(lines[0], line);
      StepsLine(f, g);
      StepsJoin(f, g, Flat(rest));
      AreLinesRest(lines);
      StepsLayout(Steps(f, g), lines[1..], at);
      Regroup(Closed(f), [g], rest);
    }
  }

  lemma AreLinesRest(lines: seq<Tokens>)
    requires AreLines(lines) && lines != []
    ensures AreLines(lines[1..])
  {
  }

  lemma MovedLine(g: Tokens, line: nat)
    requires IsLine(g)
    ensures IsLine(Moved(g, line)) && Moved(g, line)[0].line == line
  {
  }

  // ---- the two promises

  lemma {:induction false} NoTokens(src: string, line: nat)
    requires Lex(src, line) == Ok([])
    ensures AllSpace(src)
    decreases |src|
  {
    if src != "" {
      if IsSpace(src[0]) {
        NoTokens(src[1..], if src[0] == '\n' then line + 1 else line);
        assert forall i :: 1 <= i < |src| ==> src[i] == src[1..][i - 1];
      }
    }
  }

  lemma Formatted(src: string)
    requires Lex(src, 1).Ok?
    ensures var toks := Lex(src, 1).value;
            && WholeLines(Lines(toks)) && Flat(Lines(toks)) == toks
            && FormatSource(src) == Ok(if Lines(toks) == [] then "\n" else Layout(Lines(toks)))
  {
    var toks := Lex(src, 1).value;
    LexFlows(src, 1);
    LexWhole(src, 1);
    LinesHold(toks, 1);
    LinesWhole(Lines(toks));
    if Lines(toks) == [] {
      NoTokens(src, 1);
    }
  }

  lemma LexNewline()
    ensures Lex("\n", 1) == Ok([])
  {
    assert "\n"[1..] == "";
  }

  /** Formatting keeps every token, comments included. */
  lemma FormatKeeps(src: string)
    requires Lex(src, 1).Ok?
    ensures FormatSource(src).Ok? && Lex(FormatSource(src).value, 1).Ok?
    ensures Same(Lex(FormatSource(src).value, 1).value, Lex(src, 1).value)
  {
    var lines := Lines(Lex(src, 1).value);
    Formatted(src);
    if lines == [] {
      LexNewline();
    } else {
      LexLayout(lines, 1);
      RelinedSame(lines, 1);
    }
  }

  /** Formatting what was formatted changes nothing. */
  lemma FormatSettles(src: string)
    requires FormatSource(src).Ok?
    ensures FormatSource(FormatSource(src).value) == FormatSource(src)
  {
    var lines := Lines(Lex(src, 1).value);
    Formatted(src);
    if lines == [] {
      LexNewline();
      Formatted("\n");
    } else {
      LexLayout(lines, 1);
      RelinedSame(lines, 1);
      StepsLayout(START, lines, 1);
      assert Closed(START) + Relined(lines, 1) == Relined(lines, 1);
      Formatted(Layout(lines));
    }
  }
}
