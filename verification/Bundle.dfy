// Sealed bundles (zown/store.py): the graph's text under a header, the hash of
// that, and at most a signature and a proof of inclusion in the log after it.

module Bundles {
  import opened Graphs
  import M = MerkleLog

  // ---- hexadecimal and decimal

  predicate HexDigit(c: char) {
    '0' <= c <= '9' || 'a' <= c <= 'f' || 'A' <= c <= 'F'
  }

  predicate Hex(s: string, n: nat) {
    |s| == n && forall i :: 0 <= i < n ==> HexDigit(s[i])
  }

  predicate LowHex(s: string, n: nat) {
    |s| == n && forall i :: 0 <= i < n ==> '0' <= s[i] <= '9' || 'a' <= s[i] <= 'f'
  }

  function Lower(s: string): (r: string)
    ensures |r| == |s|
  {
    seq(|s|, i requires 0 <= i < |s| => if 'A' <= s[i] <= 'Z' then (s[i] as int + 32) as char else s[i])
  }

  /** 32 bytes as they are written: 64 small digits. */
  type Digest = s: string | LowHex(s, 64) witness seq(64, _ => '0')

  lemma LowHexLower(s: string, n: nat)
    requires LowHex(s, n)
    ensures Hex(s, n) && Lower(s) == s
  {
  }

  function ToDigest(s: string): Digest
    requires Hex(s, 64)
  {
    Lower(s)
  }

  function Digit(d: nat): char
    requires d < 10
  {
    ('0' as int + d) as char
  }

  function Decimal(n: nat): (s: string)
    ensures s != "" && forall i :: 0 <= i < |s| ==> '0' <= s[i] <= '9'
  {
    if n < 10 then [Digit(n)] else Decimal(n / 10) + [Digit(n % 10)]
  }

  function Number(s: string): nat
    requires forall i :: 0 <= i < |s| ==> '0' <= s[i] <= '9'
  {
    if s == "" then 0 else 10 * Number(s[..|s| - 1]) + (s[|s| - 1] as int - '0' as int)
  }

  /** A number without leading zeros. */
  function Dec(s: string): M.Option<nat> {
    if s == "" || (exists i :: 0 <= i < |s| && !('0' <= s[i] <= '9')) || (|s| > 1 && s[0] == '0') then M.None
    else M.Some(Number(s))
  }

  lemma {:induction false} DecimalFirst(n: nat)
    ensures |Decimal(n)| > 1 ==> Decimal(n)[0] != '0'
    ensures n > 0 ==> Decimal(n)[0] != '0'
    ensures Number(Decimal(n)) == n
  {
    if n >= 10 {
      DecimalFirst(n / 10);
      var s := Decimal(n);
      assert s[..|s| - 1] == Decimal(n / 10);
    } else {
      assert Number([]) == 0;
    }
  }

  lemma DecBack(n: nat)
    ensures Dec(Decimal(n)) == M.Some(n)
  {
    DecimalFirst(n);
  }

  // ---- sealing

  const TITLE := "zown-sync 1"
  const HEADER := "zown-sync 1\n"

  /** The hashes of bodies, leaves and nodes, and the check of a signature. */
  datatype Tools = Tools(hash: string -> Digest, leaf: Digest -> Digest, node: (Digest, Digest) -> Digest,
                         verify: (string, string, string) -> bool)

  function Body(g: Content): string {
    HEADER + Snapshot(g)
  }

  function HashLine(d: string): string {
    "blake3 " + d
  }

  function Sealed(t: Tools, g: Content): string {
    Body(g) + HashLine(t.hash(Body(g))) + "\n"
  }

  function SignLine(pub: string, sig: string): string {
    "ed25519" + " " + (pub + " " + sig)
  }

  function Spaced(words: seq<string>): string
    requires words != []
  {
    if |words| == 1 then words[0] else words[0] + " " + Spaced(words[1..])
  }

  function ProofLine(index: nat, size: nat, path: seq<Digest>): string {
    Spaced(["include", Decimal(index), Decimal(size)] + path)
  }

  // ---- opening

  predicate Starts(s: string, prefix: string) {
    prefix <= s
  }

  /** The last line that gives a hash. */
  function LastHash(lines: seq<string>): (r: M.Option<nat>)
    ensures r.Some? ==> r.value < |lines| && Starts(lines[r.value], "blake3 ")
  {
    if lines == [] then M.None
    else if Starts(lines[|lines| - 1], "blake3 ") then M.Some(|lines| - 1)
    else LastHash(lines[..|lines| - 1])
  }

  function SignError(t: Tools, body: string, line: string): string {
    var parts := Split(line, ' ');
    if |parts| != 3 || !Hex(parts[1], 64) || !Hex(parts[2], 128) then "TYPE_MISMATCH"
    else if !t.verify(Lower(parts[1]), body, Lower(parts[2])) then "SIG_INVALID"
    else ""
  }

  function Digests(words: seq<string>): seq<Digest>
    requires forall i :: 0 <= i < |words| ==> Hex(words[i], 64)
  {
    seq(|words|, i requires 0 <= i < |words| => ToDigest(words[i]))
  }

  function ProofError(t: Tools, log: seq<Digest>, digest: Digest, line: string): string {
    var parts := Split(line, ' ');
    if |parts| < 3 || parts[0] != "include" || Dec(parts[1]).None? || Dec(parts[2]).None? then "TYPE_MISMATCH"
    else if exists i :: 3 <= i < |parts| && !Hex(parts[i], 64) then "TYPE_MISMATCH"
    else
      var index, size := Dec(parts[1]).value, Dec(parts[2]).value;
      if size < 1 || index >= size then "TYPE_MISMATCH"
      else if log == [] || size != |log|
        || !M.ProofOk(t.leaf, t.node, digest, index, size, Digests(parts[3..]), M.TreeHash(t.leaf, t.node, log))
      then "INTEGRITY_FAIL"
      else ""
  }

  /** What is wrong with the lines after the hash. */
  function RestError(t: Tools, log: seq<Digest>, body: string, rest: seq<string>): string {
    var signed := rest != [] && Starts(rest[0], "ed25519 ");
    var rest1 := if signed then rest[1..] else rest;
    var included := rest1 != [] && Starts(rest1[0], "include ");
    var rest2 := if included then rest1[1..] else rest1;
    if rest2 != [] then "TYPE_MISMATCH"
    else if signed && SignError(t, body, rest[0]) != "" then SignError(t, body, rest[0])
    else if included then ProofError(t, log, t.hash(body), rest1[0])
    else ""
  }

  /** The bytes the hash is of. */
  function BodyOf(lines: seq<string>, k: nat): string
    requires k <= |lines|
  {
    Join(lines[..k]) + "\n"
  }

  function Claimed(line: string): string {
    if |line| < 7 then "" else line[7..]
  }

  function Opened(t: Tools, log: seq<Digest>, text: string): Result<Content> {
    if text == "" || text[|text| - 1] != '\n' then Err("TYPE_MISMATCH")
    else
      var lines := Split(text[..|text| - 1], '\n');
      match LastHash(lines)
      case None => Err("TYPE_MISMATCH")
      case Some(k) => OpenedBody(t, log, BodyOf(lines, k), Claimed(lines[k]), lines[k + 1..])
  }

  function OpenedBody(t: Tools, log: seq<Digest>, body: string, claimed: string, rest: seq<string>): Result<Content> {
    if HashError(t, body, claimed) != "" then Err(HashError(t, body, claimed))
    else if RestError(t, log, body, rest) != "" then Err(RestError(t, log, body, rest))
    else Parse(body[|HEADER|..])
  }

  function HashError(t: Tools, body: string, claimed: string): (error: string)
    ensures error == "" ==> HEADER <= body && Hex(claimed, 64) && t.hash(body) == Lower(claimed)
  {
    if !Hex(claimed, 64) then "TYPE_MISMATCH"
    else if t.hash(body) != Lower(claimed) then "INTEGRITY_FAIL"
    else if !(HEADER <= body) then "TYPE_MISMATCH"
    else ""
  }

  // ---- a sealed graph opens

  lemma {:induction false} LastHashAt(lines: seq<string>, k: nat)
    requires k < |lines| && Starts(lines[k], "blake3 ")
    requires forall j :: k < j < |lines| ==> !Starts(lines[j], "blake3 ")
    ensures LastHash(lines) == M.Some(k)
  {
    if k < |lines| - 1 {
      LastHashAt(lines[..|lines| - 1], k);
    }
  }

  /** Lines that may follow the hash. */
  ghost predicate Trailing(tail: seq<string>) {
    forall i :: 0 <= i < |tail| ==> '\n' !in tail[i] && !Starts(tail[i], "blake3 ")
  }

  function SealLines(t: Tools, g: Content): seq<string> {
    [TITLE] + Lines(g) + [HashLine(t.hash(Body(g)))]
  }

  lemma BodyText(g: Content)
    ensures Text([TITLE] + Lines(g)) == Body(g)
  {
    assert ([TITLE] + Lines(g))[1..] == Lines(g);
  }

  lemma SealText(t: Tools, g: Content, tail: seq<string>)
    ensures Text(SealLines(t, g) + tail) == Sealed(t, g) + Text(tail)
  {
    var line := HashLine(t.hash(Body(g)));
    TextSum(SealLines(t, g), tail);
    TextSum([TITLE] + Lines(g), [line]);
    BodyText(g);
    assert Text([line]) == line + "\n" + Text([]);
    assert Body(g) + (line + "\n" + "") == Sealed(t, g);
  }

  lemma HashLinePlain(d: Digest)
    ensures '\n' !in HashLine(d) && Starts(HashLine(d), "blake3 ") && Claimed(HashLine(d)) == d
  {
    assert HashLine(d)[..7] == "blake3 ";
  }

  lemma SealLinesPlain(t: Tools, g: Content, tail: seq<string>)
    requires Tidy(g) && Trailing(tail)
    ensures forall i :: 0 <= i < |SealLines(t, g) + tail| ==> '\n' !in (SealLines(t, g) + tail)[i]
    ensures LastHash(SealLines(t, g) + tail) == M.Some(|Lines(g)| + 1)
  {
    var all, k := SealLines(t, g) + tail, |Lines(g)| + 1;
    LinesPlain(g);
    HashLinePlain(t.hash(Body(g)));
    forall i | 0 <= i < |all|
      ensures '\n' !in all[i]
    {
      if i == 0 {
        assert all[i] == TITLE;
      } else if i < k {
        assert all[i] == Lines(g)[i - 1];
      } else if i > k {
        assert all[i] == tail[i - k - 1];
      }
    }
    forall j | k < j < |all|
      ensures !Starts(all[j], "blake3 ")
    {
      assert all[j] == tail[j - k - 1];
    }
    LastHashAt(all, k);
  }

  /** What opens is the graph, if there is nothing wrong with what was added. */
  lemma SealOpens(t: Tools, log: seq<Digest>, g: Content, tail: seq<string>)
    requires Tidy(g) && Trailing(tail)
    ensures Opened(t, log, Sealed(t, g) + Text(tail))
         == var error := RestError(t, log, Body(g), tail); if error != "" then Err(error) else Ok(g)
  {
    var all, k := SealLines(t, g) + tail, |Lines(g)| + 1;
    SealText(t, g, tail);
    JoinText(all);
    SealLinesPlain(t, g, tail);
    SplitJoin(all);
    OpenedLines(t, log, Sealed(t, g) + Text(tail), all, k);
    SealParts(t, g, tail, all, k);
    BodyOpens(t, log, g, tail);
  }

  lemma OpenedLines(t: Tools, log: seq<Digest>, text: string, lines: seq<string>, k: nat)
    requires text == Join(lines) + "\n" && Split(Join(lines), '\n') == lines && LastHash(lines) == M.Some(k)
    ensures Opened(t, log, text) == OpenedBody(t, log, BodyOf(lines, k), Claimed(lines[k]), lines[k + 1..])
  {
    assert text[..|text| - 1] == Join(lines);
  }

  lemma SealParts(t: Tools, g: Content, tail: seq<string>, all: seq<string>, k: nat)
    requires all == SealLines(t, g) + tail && k == |Lines(g)| + 1
    ensures k < |all| && BodyOf(all, k) == Body(g) && Claimed(all[k]) == t.hash(Body(g)) && all[k + 1..] == tail
  {
    assert all[..k] == [TITLE] + Lines(g);
    JoinText(all[..k]);
    BodyText(g);
    HashLinePlain(t.hash(Body(g)));
  }

  lemma BodyOpens(t: Tools, log: seq<Digest>, g: Content, rest: seq<string>)
    requires Tidy(g)
    ensures OpenedBody(t, log, Body(g), t.hash(Body(g)), rest)
         == var error := RestError(t, log, Body(g), rest); if error != "" then Err(error) else Ok(g)
  {
    LowHexLower(t.hash(Body(g)), 64);
    assert Body(g)[|HEADER|..] == Snapshot(g);
    SnapshotReads(g);
  }

  // ---- the lines that may be added

  lemma {:induction false} SpacedBack(words: seq<string>)
    requires words != [] && forall i :: 0 <= i < |words| ==> ' ' !in words[i] && '\n' !in words[i]
    ensures Split(Spaced(words), ' ') == words && '\n' !in Spaced(words) && words[0] <= Spaced(words)
    ensures |words| > 1 ==> words[0] + " " <= Spaced(words)
  {
    if |words| == 1 {
      SplitNone(words[0], ' ');
    } else {
      SplitFirst(words[0], ' ', Spaced(words[1..]));
      SpacedBack(words[1..]);
      assert words == [words[0]] + words[1..];
    }
  }

  lemma HexPlain(s: string, n: nat)
    requires LowHex(s, n)
    ensures ' ' !in s && '\n' !in s
  {
  }

  lemma SignLineGood(t: Tools, body: string, pub: string, sig: string)
    requires LowHex(pub, 64) && LowHex(sig, 128) && t.verify(pub, body, sig)
    ensures SignError(t, body, SignLine(pub, sig)) == "" && '\n' !in SignLine(pub, sig)
    ensures Starts(SignLine(pub, sig), "ed25519 ")
  {
    HexPlain(pub, 64);
    HexPlain(sig, 128);
    SplitFirst("ed25519", ' ', pub + " " + sig);
    SplitFirst(pub, ' ', sig);
    SplitNone(sig, ' ');
    LowHexLower(pub, 64);
    LowHexLower(sig, 128);
    assert SignLine(pub, sig)[..8] == "ed25519 ";
  }

  function ProofWords(index: nat, size: nat, path: seq<Digest>): seq<string> {
    ["include", Decimal(index), Decimal(size)] + path
  }

  lemma ProofLineBack(index: nat, size: nat, path: seq<Digest>)
    ensures Split(ProofLine(index, size, path), ' ') == ProofWords(index, size, path)
    ensures '\n' !in ProofLine(index, size, path) && Starts(ProofLine(index, size, path), "include ")
  {
    var words := ProofWords(index, size, path);
    forall i | 0 <= i < |words|
      ensures ' ' !in words[i] && '\n' !in words[i]
    {
      if i >= 3 {
        HexPlain(path[i - 3], 64);
      }
    }
    SpacedBack(words);
  }

  lemma DigestsBack(path: seq<Digest>)
    ensures forall i :: 0 <= i < |path| ==> Hex(path[i], 64)
    ensures Digests(path) == path
  {
    forall i | 0 <= i < |path|
      ensures Hex(path[i], 64) && Lower(path[i]) == path[i]
    {
      LowHexLower(path[i], 64);
    }
  }

  /** The line that is written for an entry of the log is accepted there. */
  lemma ProofLineGood(t: Tools, log: seq<Digest>, i: nat)
    requires i < |log|
    ensures ProofError(t, log, log[i], ProofLine(i, |log|, M.AuditPath(t.leaf, t.node, log, i))) == ""
  {
    var path := M.AuditPath(t.leaf, t.node, log, i);
    var words := ProofWords(i, |log|, path);
    ProofLineBack(i, |log|, path);
    DecBack(i);
    DecBack(|log|);
    DigestsBack(path);
    assert words[3..] == path;
    forall j | 3 <= j < |words|
      ensures Hex(words[j], 64)
    {
      assert words[j] == path[j - 3];
    }
    M.ProofComplete(t.leaf, t.node, log, i, i, |log|);
  }

  function IndexOf(log: seq<Digest>, d: Digest): (r: M.Option<nat>)
    ensures r.None? <==> d !in log
    ensures r.Some? ==> r.value < |log| && log[r.value] == d && d !in log[..r.value]
  {
    if log == [] then M.None
    else if log[0] == d then M.Some(0)
    else
      match IndexOf(log[1..], d)
      case None => M.None
      case Some(i) => M.Some(i + 1)
  }

  /** What `lp` writes for the graph: the proof of its first entry in the log. */
  function Inclusion(t: Tools, log: seq<Digest>, g: Content): Result<string> {
    match IndexOf(log, t.hash(Body(g)))
    case None => Err("BOUNDS")
    case Some(i) => Ok(ProofLine(i, |log|, M.AuditPath(t.leaf, t.node, log, i)) + "\n")
  }

  /** Round trip: a sealed graph opens as it was, with a signature that is valid,
      and with the proof that `lp` writes, if they are there. */
  lemma Reopens(t: Tools, log: seq<Digest>, g: Content, signed: bool, pub: string, sig: string, included: bool)
    requires Tidy(g)
    requires signed ==> LowHex(pub, 64) && LowHex(sig, 128) && t.verify(pub, Body(g), sig)
    requires included ==> Inclusion(t, log, g).Ok?
    ensures Opened(t, log, Sealed(t, g) + (if signed then SignLine(pub, sig) + "\n" else "")
                           + (if included then Inclusion(t, log, g).value else "")) == Ok(g)
  {
    var a := if signed then [SignLine(pub, sig)] else [];
    var b := if included then [Inclusion(t, log, g).value[..|Inclusion(t, log, g).value| - 1]] else [];
    if signed {
      SignLineGood(t, Body(g), pub, sig);
    }
    if included {
      InclusionGood(t, log, g, b[0]);
    }
    TailText(t, g, a, b);
    SealOpens(t, log, g, a + b);
    assert signed ==> (a + b)[0] == a[0] && (a + b)[1..] == b;
    assert !signed ==> a + b == b;
  }

  lemma SealedOpens(t: Tools, log: seq<Digest>, g: Content)
    requires Tidy(g)
    ensures Opened(t, log, Sealed(t, g)) == Ok(g)
  {
    OneText([]);
    SealOpens(t, log, g, []);
    assert Sealed(t, g) + "" == Sealed(t, g);
  }

  lemma ProvedOpens(t: Tools, log: seq<Digest>, g: Content, line: string)
    requires Tidy(g) && Inclusion(t, log, g) == Ok(line)
    ensures Opened(t, log, Sealed(t, g) + line) == Ok(g)
  {
    var bare := line[..|line| - 1];
    InclusionGood(t, log, g, bare);
    OneText([bare]);
    SealOpens(t, log, g, [bare]);
  }

  lemma InclusionGood(t: Tools, log: seq<Digest>, g: Content, line: string)
    requires Inclusion(t, log, g).Ok? && line == Inclusion(t, log, g).value[..|Inclusion(t, log, g).value| - 1]
    ensures Inclusion(t, log, g).value == line + "\n"
    ensures ProofError(t, log, t.hash(Body(g)), line) == "" && '\n' !in line && Starts(line, "include ")
    ensures !Starts(line, "ed25519 ") && !Starts(line, "blake3 ")
  {
    var i := IndexOf(log, t.hash(Body(g))).value;
    var path := M.AuditPath(t.leaf, t.node, log, i);
    ProofLineGood(t, log, i);
    ProofLineBack(i, |log|, path);
    assert line == ProofLine(i, |log|, path);
  }

  lemma TailText(t: Tools, g: Content, a: seq<string>, b: seq<string>)
    requires |a| <= 1 && |b| <= 1
    ensures Sealed(t, g) + Text(a + b)
         == Sealed(t, g) + (if a != [] then a[0] + "\n" else "") + (if b != [] then b[0] + "\n" else "")
  {
    TextSum(a, b);
    OneText(a);
    OneText(b);
  }

  lemma OneText(a: seq<string>)
    requires |a| <= 1
    ensures Text(a) == if a != [] then a[0] + "\n" else ""
  {
  }

  // ---- what an opened bundle shows

  lemma OpenedTidy(t: Tools, log: seq<Digest>, text: string)
    ensures Opened(t, log, text).Ok? ==> Tidy(Opened(t, log, text).value)
  {
    if Opened(t, log, text).Ok? {
      var lines := Split(text[..|text| - 1], '\n');
      ParseTidy(BodyOf(lines, LastHash(lines).value)[|HEADER|..]);
    }
  }

  lemma OpenedCode(t: Tools, log: seq<Digest>, text: string)
    ensures Opened(t, log, text) != Err("")
  {
    if text != "" && text[|text| - 1] == '\n' {
      var lines := Split(text[..|text| - 1], '\n');
      match LastHash(lines)
      case None =>
      case Some(k) => BodyCode(t, log, BodyOf(lines, k), Claimed(lines[k]), lines[k + 1..]);
    }
  }

  lemma BodyCode(t: Tools, log: seq<Digest>, body: string, claimed: string, rest: seq<string>)
    ensures OpenedBody(t, log, body, claimed, rest) != Err("")
  {
    if HEADER <= body {
      ParseCode(body[|HEADER|..]);
    }
  }

  /** The body of a bundle and the hash it claims. */
  ghost predicate Holds(text: string, body: string, claimed: string) {
    && text != "" && text[|text| - 1] == '\n'
    && var lines := Split(text[..|text| - 1], '\n');
       LastHash(lines).Some? && body == BodyOf(lines, LastHash(lines).value)
       && claimed == Claimed(lines[LastHash(lines).value])
  }

  /** A bundle that opens and claims the hash of a graph is that graph's, or its
      body and the graph's are two texts with one hash. */
  lemma HashBinds(t: Tools, log: seq<Digest>, text: string, g: Content, h: Content)
    returns (body: string, claimed: string)
    requires Tidy(g) && Opened(t, log, text) == Ok(h)
    ensures Holds(text, body, claimed) && t.hash(body) == Lower(claimed)
    ensures Lower(claimed) == t.hash(Body(g)) ==> h == g || (body != Body(g) && t.hash(body) == t.hash(Body(g)))
  {
    var lines := Split(text[..|text| - 1], '\n');
    body, claimed := BodyOf(lines, LastHash(lines).value), Claimed(lines[LastHash(lines).value]);
    if body == Body(g) {
      assert body[|HEADER|..] == Snapshot(g);
      SnapshotReads(g);
    }
  }

  /** An accepted line of inclusion shows that the log has the digest where the line
      says, or two inputs of one hash. */
  lemma InclusionShows(t: Tools, log: seq<Digest>, digest: Digest, line: string) returns (r: M.Meeting<Digest>)
    requires ProofError(t, log, digest, line) == ""
    ensures r.At? ==> r.i < |log| && log[r.i] == digest && Dec(Split(line, ' ')[1]) == M.Some(r.i)
    ensures r.Clashes? ==> M.IsClash(t.leaf, t.node, r.clash)
  {
    var parts := Split(line, ' ');
    var index, size := Dec(parts[1]).value, Dec(parts[2]).value;
    r := M.ProofMeets(t.leaf, t.node, log, digest, index, size, Digests(parts[3..]));
    if r.At? {
      M.TurnsTell(index, r.i, |log|);
    }
  }

  // ---- the VM's graph and log

  /** Goes over all lines: the last hash counts. */
  method FindHash(lines: seq<string>) returns (r: M.Option<nat>)
    ensures r == LastHash(lines)
  {
    r := M.None;
    for i := 0 to |lines|
      invariant r == LastHash(lines[..i])
    {
      assert lines[..i + 1][..i] == lines[..i];
      if Starts(lines[i], "blake3 ") {
        r := M.Some(i);
      }
    }
    assert lines[..|lines|] == lines;
  }

  method CheckProof(t: Tools, log: seq<Digest>, digest: Digest, line: string) returns (error: string)
    ensures error == ProofError(t, log, digest, line)
  {
    var parts := Split(line, ' ');
    if |parts| < 3 || parts[0] != "include" {
      return "TYPE_MISMATCH";
    }
    var index, size := Dec(parts[1]), Dec(parts[2]);
    if index.None? || size.None? {
      return "TYPE_MISMATCH";
    }
    var path: seq<Digest> := [];
    for i := 3 to |parts|
      invariant forall j :: 3 <= j < i ==> Hex(parts[j], 64)
      invariant path == Digests(parts[3..i])
    {
      if !Hex(parts[i], 64) {
        return "TYPE_MISMATCH";
      }
      path := path + [ToDigest(parts[i])];
    }
    assert parts[3..|parts|] == parts[3..];
    if size.value < 1 || index.value >= size.value {
      return "TYPE_MISMATCH";
    }
    if log == [] || size.value != |log|
      || !M.ProofOk(t.leaf, t.node, digest, index.value, size.value, path, M.TreeHash(t.leaf, t.node, log)) {
      return "INTEGRITY_FAIL";
    }
    return "";
  }

  method CheckRest(t: Tools, log: seq<Digest>, body: string, rest0: seq<string>) returns (error: string)
    ensures error == RestError(t, log, body, rest0)
  {
    var rest, signed, included := rest0, "", "";
    if rest != [] && Starts(rest[0], "ed25519 ") {
      signed, rest := rest[0], rest[1..];
    }
    if rest != [] && Starts(rest[0], "include ") {
      included, rest := rest[0], rest[1..];
    }
    if rest != [] {
      return "TYPE_MISMATCH";
    }
    error := "";
    if signed != "" {
      error := SignError(t, body, signed);
    }
    if error == "" && included != "" {
      error := CheckProof(t, log, t.hash(body), included);
    }
  }

  method OpenBundle(t: Tools, log: seq<Digest>, text: string) returns (r: Result<Graph>)
    ensures match r
      case Ok(graph) => fresh(graph) && Opened(t, log, text) == Ok(graph.View())
      case Err(code) => Opened(t, log, text) == Err(code)
  {
    if text == "" || text[|text| - 1] != '\n' {
      return Err("TYPE_MISMATCH");
    }
    var lines := Split(text[..|text| - 1], '\n');
    var k := FindHash(lines);
    if k.None? {
      return Err("TYPE_MISMATCH");
    }
    var body, claimed := Join(lines[..k.value]) + "\n", lines[k.value][7..];
    var error := HashError(t, body, claimed);
    if error == "" {
      error := CheckRest(t, log, body, lines[k.value + 1..]);
    }
    if error != "" {
      return Err(error);
    }
    r := ReadSnapshot(body[|HEADER|..]);
  }

  class Store {
    const t: Tools
    var graph: Graph
    var log: seq<Digest>

    ghost predicate Valid()
      reads this, graph
    {
      Tidy(graph.View())
    }

    constructor (t: Tools)
      ensures Valid() && fresh(graph) && graph.View() == EMPTY && log == [] && this.t == t
    {
      this.t := t;
      graph := new Graph();
      log := [];
    }

    method AddVert(name: string) returns (code: string)
      requires Valid()
      modifies graph
      ensures Valid() && code == if Word(name) then "" else "TYPE_MISMATCH"
      ensures graph.View() == if code == "" then WithVert(old(graph.View()), name) else old(graph.View())
    {
      if !Word(name) {
        return "TYPE_MISMATCH";
      }
      VertTidy(graph.View(), name);
      graph.AddVert(name);
      code := "";
    }

    method AddEdge(src: string, lab: string, dst: string) returns (code: string)
      requires Valid()
      modifies graph
      ensures Valid() && code == if Word(src) && Word(lab) && Word(dst) then "" else "TYPE_MISMATCH"
      ensures graph.View() == if code == "" then WithEdge(old(graph.View()), Edge(src, lab, dst)) else old(graph.View())
    {
      if !Word(src) || !Word(lab) || !Word(dst) {
        return "TYPE_MISMATCH";
      }
      EdgeTidy(graph.View(), Edge(src, lab, dst));
      graph.AddEdge(src, lab, dst);
      code := "";
    }

    /** Seals the graph; it opens again as it was. */
    method Seal() returns (text: string)
      requires Valid()
      ensures text == Sealed(t, graph.View()) && Opened(t, log, text) == Ok(graph.View())
    {
      var snapshot := graph.Snapshot();
      var body := HEADER + snapshot;
      text := body + HashLine(t.hash(body)) + "\n";
      SealedOpens(t, log, graph.View());
    }

    /** Puts the graph's digest at the end of the log. */
    method Append() returns (n: nat)
      modifies this`log
      ensures log == old(log) + [t.hash(Body(graph.View()))] && n == |log|
    {
      var snapshot := graph.Snapshot();
      log := log + [t.hash(HEADER + snapshot)];
      n := |log|;
    }

    /** The line of inclusion, good behind what Seal gives. */
    method Prove() returns (r: Result<string>)
      requires Valid()
      ensures r == Inclusion(t, log, graph.View()) && (r.Ok? <==> t.hash(Body(graph.View())) in log)
      ensures r.Ok? ==> Opened(t, log, Sealed(t, graph.View()) + r.value) == Ok(graph.View())
    {
      var snapshot := graph.Snapshot();
      var digest := t.hash(HEADER + snapshot);
      match IndexOf(log, digest)
      case None =>
        r := Err("BOUNDS");
      case Some(i) =>
        r := Ok(ProofLine(i, |log|, M.AuditPath(t.leaf, t.node, log, i)) + "\n");
        ProvedOpens(t, log, graph.View(), r.value);
    }

    /** Replaces the graph by that of a bundle; it stays if there is a fault. */
    method Open(text: string) returns (code: string)
      requires Valid()
      modifies this`graph
      ensures Valid() && (code == "" <==> Opened(t, log, text).Ok?)
      ensures match Opened(t, log, text)
        case Ok(g) => fresh(graph) && graph.View() == g
        case Err(error) => code == error && graph == old(graph)
    {
      var r := OpenBundle(t, log, text);
      OpenedTidy(t, log, text);
      OpenedCode(t, log, text);
      match r
      case Ok(found) =>
        graph := found;
        code := "";
      case Err(error) =>
        code := error;
    }
  }
}
