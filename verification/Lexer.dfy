// The lexer of Zown: a cursor over the source, with longest matches, strings that
// may span lines, and comments up to the end of a line.

module Lexer {

  datatype Result<T> = Ok(value: T) | Err(code: string)

  datatype Kind = INT | FLOAT | STR | IDENT | BIND | MOVE | CAP | LBRACK | RBRACK | OP | COMMENT

  /** A token with its lexeme and the line it starts on. */
  datatype Token = Token(kind: Kind, text: string, line: nat)

  const REPAIR_SYNTAX := "REPAIR_SYNTAX"
  const OVERFLOW := "OVERFLOW"
  const INT_MAX: int := 0x7fff_ffff_ffff_ffff

  predicate IsSpace(c: char) { c == ' ' || c == '\t' || c == '\r' || c == '\n' }
  predicate IsDigit(c: char) { '0' <= c <= '9' }
  predicate IsStart(c: char) { 'a' <= c <= 'z' || 'A' <= c <= 'Z' }
  predicate IsCont(c: char) { IsStart(c) || IsDigit(c) }
  predicate InLine(c: char) { c != '\n' }
  predicate IsSigil(c: char) { c == ':' || c == '\'' || c == '`' || c == '~' }

  predicate IsTwoOp(a: char, b: char) {
    (b == '=' && (a == '=' || a == '!' || a == '<' || a == '>')) || (a == b && (a == '&' || a == '|' || a == '?'))
  }

  const ONE_CHAR_OPS: string := "@.,=\\&+-*/%<>!?;_|^\U{00BB}\U{00AB}\U{2192}"

  // ---- readers: where a token that begins at the front ends

  /** Where the characters from i on stop satisfying p. */
  function Span(s: string, i: nat, p: char -> bool): (e: nat)
    requires i <= |s|
    ensures i <= e <= |s|
    decreases |s| - i
  {
    if i < |s| && p(s[i]) then Span(s, i + 1, p) else i
  }

  datatype Option = None | Some(end: nat)

  /** Where a string ends whose rest begins at i; a backslash hides one character. */
  function StrEnd(s: string, i: nat): (e: Option)
    ensures e.Some? ==> i < e.end <= |s|
    decreases |s| - i
  {
    if i >= |s| then None
    else if s[i] == '\\' then StrEnd(s, if i + 1 < |s| then i + 2 else i + 1)
    else if s[i] == '$' then Some(i + 1)
    else StrEnd(s, i + 1)
  }

  function Digits(s: string): nat
    requires forall i :: 0 <= i < |s| ==> IsDigit(s[i])
  {
    if s == "" then 0
    else
      assert IsDigit(s[|s| - 1]);
      10 * Digits(s[..|s| - 1]) + (s[|s| - 1] as int - '0' as int)
  }

  /** How much of the text is the token at its front. */
  datatype Read = Bad(code: string) | Tok(kind: Kind, len: nat)

  function ReadNumber(s: string): Read
    requires s != "" && IsDigit(s[0])
  {
    var e := Span(s, 0, IsDigit);
    if e + 1 < |s| && s[e] == '.' && IsDigit(s[e + 1]) then Tok(FLOAT, Span(s, e + 1, IsDigit))
    else
      SpanAll(s, 0, IsDigit);
      if Digits(s[..e]) > INT_MAX then Bad(OVERFLOW) else Tok(INT, e)
  }

  function SigilKind(c: char): Kind
    requires IsSigil(c)
  {
    if c == ':' then BIND else if c == '\'' then MOVE else if c == '`' then CAP else OP
  }

  function ReadFront(s: string): (r: Read)
    requires s != "" && !IsSpace(s[0])
    ensures r.Tok? ==> 1 <= r.len <= |s|
  {
    var c := s[0];
    if c == '#' then Tok(COMMENT, Span(s, 1, InLine))
    else if c == '$' then
      var e := StrEnd(s, 1);
      if e.None? then Bad(REPAIR_SYNTAX) else Tok(STR, e.end)
    else if c == '[' then Tok(LBRACK, 1)
    else if c == ']' then Tok(RBRACK, 1)
    else if IsSigil(c) then
      if |s| > 1 && IsStart(s[1]) then Tok(SigilKind(c), Span(s, 1, IsCont)) else Bad(REPAIR_SYNTAX)
    else if IsDigit(c) then
      assert Span(s, 0, IsDigit) >= 1;
      ReadNumber(s)
    else if IsStart(c) then Tok(IDENT, Span(s, 1, IsCont))
    else if |s| > 1 && IsTwoOp(c, s[1]) then Tok(OP, 2)
    else if c in ONE_CHAR_OPS then Tok(OP, 1)
    else Bad(REPAIR_SYNTAX)
  }

  function Newlines(s: string): nat {
    if s == "" then 0 else (if s[0] == '\n' then 1 else 0) + Newlines(s[1..])
  }

  /** The tokens of a text that begins on a line, comments among them. */
  function Lex(s: string, line: nat): Result<seq<Token>>
    decreases |s|, 1
  {
    if s == "" then Ok([])
    else if IsSpace(s[0]) then Lex(s[1..], if s[0] == '\n' then line + 1 else line)
    else LexToken(s, line)
  }

  /** The token at the front, and those after it. */
  function LexToken(s: string, line: nat): Result<seq<Token>>
    requires s != "" && !IsSpace(s[0])
    decreases |s|, 0
  {
    match ReadFront(s)
    case Bad(code) => Err(code)
    case Tok(kind, n) =>
      var rest := Lex(s[n..], line + Newlines(s[..n]));
      if rest.Err? then rest else Ok([Token(kind, s[..n], line)] + rest.value)
  }

  // ---- a lexeme is read again as what it was

  lemma {:induction false} SpanAll(s: string, i: nat, p: char -> bool)
    requires i <= |s|
    ensures forall k :: i <= k < Span(s, i, p) ==> p(s[k])
    ensures Span(s, i, p) < |s| ==> !p(s[Span(s, i, p)])
    decreases |s| - i
  {
    if i < |s| && p(s[i]) {
      SpanAll(s, i + 1, p);
    }
  }

  lemma {:induction false} SpanIs(s: string, i: nat, p: char -> bool, e: nat)
    requires i <= e <= |s| && (forall k :: i <= k < e ==> p(s[k])) && (e < |s| ==> !p(s[e]))
    ensures Span(s, i, p) == e
    decreases e - i
  {
    if i < e {
      SpanIs(s, i + 1, p, e);
    }
  }

  /** What follows a run and does not belong to it does not change it. */
  lemma SpanStable(s: string, i: nat, p: char -> bool, r: string)
    requires i <= |s| && (r != "" ==> !p(r[0]))
    ensures var e := Span(s, i, p); Span(s[..e] + r, i, p) == e
  {
    var e := Span(s, i, p);
    SpanAll(s, i, p);
    SpanIs(s[..e] + r, i, p, e);
  }

  lemma {:induction false} StrStable(s: string, i: nat, r: string, e: nat)
    requires StrEnd(s, i) == Some(e)
    ensures StrEnd(s[..e] + r, i) == Some(e)
    decreases |s| - i
  {
    var w := s[..e] + r;
    assert w[i] == s[i];
    if s[i] == '\\' {
      StrStable(s, if i + 1 < |s| then i + 2 else i + 1, r, e);
    } else if s[i] != '$' {
      StrStable(s, i + 1, r, e);
    }
  }

  /** What may follow a token: nothing, a new line, or a space unless the token is a
      comment. */
  predicate Ends(kind: Kind, r: string) {
    r == "" || r[0] == '\n' || (r[0] == ' ' && kind != COMMENT)
  }

  lemma NumberStable(s: string, r: string)
    requires s != "" && IsDigit(s[0]) && ReadNumber(s).Tok? && Ends(ReadNumber(s).kind, r)
    ensures var n := ReadNumber(s).len; n > 0 && n <= |s| && ReadNumber(s[..n] + r) == ReadNumber(s)
  {
    var e, n := Span(s, 0, IsDigit), ReadNumber(s).len;
    var w := s[..n] + r;
    SpanAll(s, 0, IsDigit);
    if ReadNumber(s).kind == FLOAT {
      SpanIs(w, 0, IsDigit, e);
      SpanStable(s, e + 1, IsDigit, r);
      SpanAll(s, e + 1, IsDigit);
      assert Span(s, e + 1, IsDigit) > e + 1;
    } else {
      SpanStable(s, 0, IsDigit, r);
      assert w[..e] == s[..e];
    }
  }

  lemma ReadStable(s: string, r: string)
    requires s != "" && !IsSpace(s[0]) && ReadFront(s).Tok? && Ends(ReadFront(s).kind, r)
    ensures var n := ReadFront(s).len; ReadFront(s[..n] + r) == ReadFront(s)
  {
    var c, n := s[0], ReadFront(s).len;
    var w := s[..n] + r;
    assert w[0] == c;
    if c == '#' {
      SpanStable(s, 1, InLine, r);
    } else if c == '$' {
      StrStable(s, 1, r, n);
    } else if IsSigil(c) {
      SpanStable(s, 1, IsCont, r);
      assert Span(s, 1, IsCont) > 1;
    } else if IsDigit(c) {
      NumberStable(s, r);
    } else if IsStart(c) {
      SpanStable(s, 1, IsCont, r);
    }
  }

  /** The lexeme alone is read as this token. */
  predicate Whole(t: Token) {
    t.text != "" && !IsSpace(t.text[0]) && ReadFront(t.text) == Tok(t.kind, |t.text|)
  }

  lemma ReadWhole(s: string, line: nat)
    requires s != "" && !IsSpace(s[0]) && ReadFront(s).Tok?
    ensures Whole(Token(ReadFront(s).kind, s[..ReadFront(s).len], line))
  {
    var n := ReadFront(s).len;
    ReadStable(s, "");
    assert s[..n] + "" == s[..n];
  }

  ghost predicate AllWhole(toks: seq<Token>) {
    forall i :: 0 <= i < |toks| ==> Whole(toks[i])
  }

  /** Each token starts no earlier than the one before it ends. */
  ghost predicate Flows(toks: seq<Token>, line: nat) {
    && (toks != [] ==> line <= toks[0].line)
    && (forall i :: 0 <= i < |toks| - 1 ==> toks[i].line + Newlines(toks[i].text) <= toks[i + 1].line)
  }

  lemma {:induction false} LexFlows(s: string, line: nat)
    requires Lex(s, line).Ok?
    ensures Flows(Lex(s, line).value, line)
    decreases |s|
  {
    if s != "" {
      if IsSpace(s[0]) {
        LexFlows(s[1..], if s[0] == '\n' then line + 1 else line);
      } else {
        var n := ReadFront(s).len;
        var at := line + Newlines(s[..n]);
        LexFlows(s[n..], at);
        FlowsCons(Token(ReadFront(s).kind, s[..n], line), Lex(s[n..], at).value, at);
      }
    }
  }

  lemma FlowsCons(t: Token, toks: seq<Token>, at: nat)
    requires Flows(toks, at) && at == t.line + Newlines(t.text)
    ensures Flows([t] + toks, t.line)
  {
    var all := [t] + toks;
    forall i | 0 <= i < |all| - 1
      ensures all[i].line + Newlines(all[i].text) <= all[i + 1].line
    {
      if i > 0 {
        assert all[i] == toks[i - 1] && all[i + 1] == toks[i - 1 + 1];
      }
    }
  }

  lemma {:induction false} LexWhole(s: string, line: nat)
    requires Lex(s, line).Ok?
    ensures AllWhole(Lex(s, line).value)
    decreases |s|
  {
    if s != "" {
      if IsSpace(s[0]) {
        LexWhole(s[1..], if s[0] == '\n' then line + 1 else line);
      } else {
        ReadWhole(s, line);
        LexWhole(s[ReadFront(s).len..], line + Newlines(s[..ReadFront(s).len]));
      }
    }
  }

  // ---- the cursor

  /** The token at the front of the rest, or the fault, and where the cursor is then. */
  ghost predicate Reads(r: Result<Token>, src: string, at: nat, i: nat, from: nat, line: nat)
    requires at < |src| && !IsSpace(src[at])
  {
    match ReadFront(src[at..])
    case Bad(code) => r == Err(code)
    case Tok(kind, n) =>
      && i == at + n && i <= |src| && r == Ok(Token(kind, src[at..i], from)) && line == from + Newlines(src[at..i])
  }

  function Prepend(out: seq<Token>, r: Result<seq<Token>>): Result<seq<Token>> {
    if r.Err? then r else Ok(out + r.value)
  }

  lemma PrependNone(r: Result<seq<Token>>)
    ensures Prepend([], r) == r
  {
    assert r.Ok? ==> [] + r.value == r.value;
  }

  lemma LexSkip(src: string, at: nat, from: nat)
    requires at < |src| && IsSpace(src[at])
    ensures Lex(src[at..], from) == Lex(src[at + 1..], from + Newlines([src[at]]))
  {
    assert src[at..][1..] == src[at + 1..];
  }

  lemma LexRead(src: string, at: nat, i: nat, from: nat, line: nat, out: seq<Token>, r: Result<Token>)
    requires at < |src| && !IsSpace(src[at]) && Reads(r, src, at, i, from, line)
    ensures r.Err? ==> Lex(src[at..], from) == Err(r.code)
    ensures r.Ok? ==> at < i <= |src| && Prepend(out, Lex(src[at..], from)) == Prepend(out + [r.value], Lex(src[i..], line))
  {
    var s := src[at..];
    if r.Ok? {
      assert s[i - at..] == src[i..] && s[..i - at] == src[at..i];
      var rest := Lex(src[i..], line);
      if rest.Ok? {
        assert out + ([r.value] + rest.value) == out + [r.value] + rest.value;
      }
    }
  }

  lemma {:induction false} SpanShift(s: string, at: nat, i: nat, p: char -> bool)
    requires at + i <= |s|
    ensures Span(s, at + i, p) == at + Span(s[at..], i, p)
    decreases |s| - at - i
  {
    if at + i < |s| && p(s[at + i]) {
      SpanShift(s, at, i + 1, p);
    }
  }

  lemma {:induction false} StrShift(s: string, at: nat, i: nat)
    requires at + i <= |s|
    ensures StrEnd(s, at + i) == match StrEnd(s[at..], i) case None => None case Some(e) => Some(at + e)
    decreases |s| - at - i
  {
    if at + i < |s| && s[at + i] == '\\' {
      StrShift(s, at, if at + i + 1 < |s| then i + 2 else i + 1);
    } else if at + i < |s| && s[at + i] != '$' {
      StrShift(s, at, i + 1);
    }
  }

  class Cursor {
    const src: string
    var i: nat
    var line: nat

    constructor (src: string)
      ensures this.src == src && i == 0 && line == 1
    {
      this.src := src;
      i, line := 0, 1;
    }

    method Advance()
      requires i < |src|
      modifies this
      ensures i == old(i) + 1 && line == old(line) + Newlines([src[old(i)]])
    {
      if src[i] == '\n' {
        line := line + 1;
      }
      i := i + 1;
    }

    /** Moves on while the characters satisfy p. */
    method While(p: char -> bool)
      requires i <= |src|
      modifies this
      ensures i == Span(src, old(i), p) && line == old(line) + Newlines(src[old(i)..i])
    {
      ghost var at := i;
      while i < |src| && p(src[i])
        invariant at <= i <= |src| && Span(src, at, p) == Span(src, i, p) && line == old(line) + Newlines(src[at..i])
      {
        NewlinesSnoc(src, at, i);
        Advance();
      }
    }

    /** One character is the whole token. */
    method One(kind: Kind) returns (t: Token)
      requires i < |src| && src[i] != '\n'
      modifies this
      ensures i == old(i) + 1 && line == old(line) && t == Token(kind, src[old(i)..i], old(line))
    {
      t := Token(kind, src[i..i + 1], line);
      Advance();
    }

    /** A first character and those after it that satisfy p. */
    method Run(kind: Kind, p: char -> bool) returns (t: Token)
      requires i < |src| && src[i] != '\n'
      modifies this
      ensures i == Span(src, old(i) + 1, p) && t == Token(kind, src[old(i)..i], old(line))
      ensures line == old(line) + Newlines(src[old(i)..i])
    {
      var start, from := i, line;
      Advance();
      While(p);
      NewlinesJoin([src[start]], src[start + 1..i]);
      assert [src[start]] + src[start + 1..i] == src[start..i];
      t := Token(kind, src[start..i], from);
    }

    /** Moves to the end of a string; false if there is none. */
    method String() returns (closed: bool)
      requires i <= |src|
      modifies this
      ensures closed == StrEnd(src, old(i)).Some?
      ensures closed ==> i == StrEnd(src, old(i)).end && line == old(line) + Newlines(src[old(i)..i])
    {
      ghost var at := i;
      while i < |src|
        invariant at <= i <= |src| && StrEnd(src, at) == StrEnd(src, i) && line == old(line) + Newlines(src[at..i])
        decreases |src| - i
      {
        var c := src[i];
        NewlinesSnoc(src, at, i);
        Advance();
        if c == '\\' {
          if i < |src| {
            NewlinesSnoc(src, at, i);
            Advance();
          }
        } else if c == '$' {
          return true;
        }
      }
      return false;
    }

    method ReadString() returns (r: Result<Token>)
      requires i < |src| && src[i] == '$'
      modifies this
      ensures StrEnd(src, old(i) + 1).None? ==> r == Err(REPAIR_SYNTAX)
      ensures StrEnd(src, old(i) + 1).Some? ==>
                && i == StrEnd(src, old(i) + 1).end && r == Ok(Token(STR, src[old(i)..i], old(line)))
                && line == old(line) + Newlines(src[old(i)..i])
    {
      var start, from := i, line;
      Advance();
      var closed := String();
      if !closed {
        return Err(REPAIR_SYNTAX);
      }
      NewlinesJoin([src[start]], src[start + 1..i]);
      assert [src[start]] + src[start + 1..i] == src[start..i];
      r := Ok(Token(STR, src[start..i], from));
    }

    /** The decimal point and the digits after it. */
    method Fraction(ghost start: nat)
      requires start <= i < |src|
      modifies this
      ensures i == Span(src, old(i) + 1, IsDigit) == start + Span(src[start..], old(i) - start + 1, IsDigit)
      ensures line + Newlines(src[start..old(i)]) == old(line) + Newlines(src[start..i])
    {
      ghost var point := i;
      Advance();
      While(IsDigit);
      SpanShift(src, start, point + 1 - start, IsDigit);
      NewlinesSnoc(src, start, point);
      NewlinesPart(src, start, point + 1, i);
    }

    method ReadNumber() returns (r: Result<Token>)
      requires i < |src| && IsDigit(src[i])
      modifies this
      ensures Reads(r, src, old(i), i, old(line), line)
    {
      var start, from := i, line;
      While(IsDigit);
      SpanAll(src, start, IsDigit);
      SpanShift(src, start, 0, IsDigit);
      SpanAll(src[start..], 0, IsDigit);
      if i + 1 < |src| && src[i] == '.' && IsDigit(src[i + 1]) {
        Fraction(start);
        r := Ok(Token(FLOAT, src[start..i], from));
      } else {
        assert src[start..][..i - start] == src[start..i];
        r := if Digits(src[start..i]) > INT_MAX then Err(OVERFLOW) else Ok(Token(INT, src[start..i], from));
      }
    }

    /** Reads the token at the cursor, whatever it is. */
    method ReadToken() returns (r: Result<Token>)
      requires i < |src| && !IsSpace(src[i])
      modifies this
      ensures Reads(r, src, old(i), i, old(line), line)
    {
      var c := src[i];
      SpanShift(src, i, 1, InLine);
      SpanShift(src, i, 1, IsCont);
      StrShift(src, i, 1);
      if c == '#' {
        var t := Run(COMMENT, InLine);
        r := Ok(t);
      } else if c == '$' {
        r := ReadString();
      } else if c == '[' {
        var t := One(LBRACK);
        r := Ok(t);
      } else if c == ']' {
        var t := One(RBRACK);
        r := Ok(t);
      } else if IsSigil(c) {
        if i + 1 < |src| && IsStart(src[i + 1]) {
          var t := Run(SigilKind(c), IsCont);
          r := Ok(t);
        } else {
          r := Err(REPAIR_SYNTAX);
        }
      } else if IsDigit(c) {
        r := ReadNumber();
      } else if IsStart(c) {
        var t := Run(IDENT, IsCont);
        r := Ok(t);
      } else {
        r := ReadOp();
      }
    }

    method ReadOp() returns (r: Result<Token>)
      requires i < |src| && !IsSpace(src[i]) && src[i] !in "#$[]" && !IsSigil(src[i]) && !IsCont(src[i])
      modifies this
      ensures Reads(r, src, old(i), i, old(line), line)
    {
      var start, from := i, line;
      if i + 1 < |src| && IsTwoOp(src[i], src[i + 1]) {
        NewlinesSnoc(src, start, start);
        NewlinesSnoc(src, start, start + 1);
        Advance();
        Advance();
        r := Ok(Token(OP, src[start..i], from));
      } else if src[i] in ONE_CHAR_OPS {
        var t := One(OP);
        r := Ok(t);
      } else {
        r := Err(REPAIR_SYNTAX);
      }
    }

    /** All tokens from the cursor on. */
    method Tokens() returns (r: Result<seq<Token>>)
      requires i <= |src|
      modifies this
      ensures r == Lex(src[old(i)..], old(line))
    {
      var out: seq<Token> := [];
      ghost var all := Lex(src[i..], line);
      PrependNone(all);
      while i < |src|
        invariant i <= |src| && all == Prepend(out, Lex(src[i..], line))
        decreases |src| - i
      {
        ghost var at, from := i, line;
        if IsSpace(src[i]) {
          LexSkip(src, at, from);
          Advance();
        } else {
          var t := ReadToken();
          LexRead(src, at, i, from, line, out, t);
          if t.Err? {
            return Err(t.code);
          }
          out := out + [t.value];
        }
      }
      assert out + [] == out;
      r := Ok(out);
    }
  }

  lemma {:induction false} NewlinesJoin(a: string, b: string)
    ensures Newlines(a + b) == Newlines(a) + Newlines(b)
  {
    if a == "" {
      assert a + b == b;
    } else {
      NewlinesJoin(a[1..], b);
      assert (a + b)[1..] == a[1..] + b;
    }
  }

  lemma NewlinesPart(s: string, a: nat, b: nat, c: nat)
    requires a <= b <= c <= |s|
    ensures Newlines(s[a..c]) == Newlines(s[a..b]) + Newlines(s[b..c])
  {
    NewlinesJoin(s[a..b], s[b..c]);
    assert s[a..b] + s[b..c] == s[a..c];
  }

  lemma NewlinesSnoc(s: string, at: nat, i: nat)
    requires at <= i < |s|
    ensures Newlines(s[at..i + 1]) == Newlines(s[at..i]) + Newlines([s[i]])
  {
    NewlinesJoin(s[at..i], [s[i]]);
    assert s[at..i] + [s[i]] == s[at..i + 1];
  }
}
