// Bytes and words of the hash: the bytes of a digest weigh up to its words, a block
// of bytes is read as the words that give those bytes, and the compression at the
// root is told apart from all others.

module Blake3Bytes {
  import opened Bits
  import opened Blake3

  /** Four bytes, the least significant first. */
  function Weight(b: seq<nat>, i: nat): nat
    requires i + 4 <= |b|
  {
    b[i] + 256 * b[i + 1] + 65536 * b[i + 2] + 16777216 * b[i + 3]
  }

  lemma WordWeighs(w: nat)
    requires w < 0x1_0000_0000
    ensures w == w % 256 + 256 * (w / 256 % 256) + 65536 * (w / 65536 % 256) + 16777216 * (w / 16777216 % 256)
  {
    var a := w / 256;
    var b := w / 65536;
    var c := w / 16777216;
    assert b == a / 256 && c == b / 256;
  }

  predicate AreBytes(b: seq<nat>, i: nat)
    requires i + 4 <= |b|
  {
    b[i] < 256 && b[i + 1] < 256 && b[i + 2] < 256 && b[i + 3] < 256
  }

  /** The bytes of the k-th word are at 4k, and weigh up to it. */
  lemma {:induction false} BytesWeigh(words: Words, k: nat, i: nat)
    requires k < |words| && i == 4 * k && words[k] < 0x1_0000_0000
    ensures |LeBytes(words)| == 4 * |words| && i + 4 <= |LeBytes(words)|
    ensures Weight(LeBytes(words), i) == words[k] && AreBytes(LeBytes(words), i)
    decreases k
  {
    BytesLength(words);
    var w, rest := words[0], LeBytes(words[1..]);
    var first: seq<nat> := [w % 256, w / 256 % 256, w / 65536 % 256, w / 16777216 % 256];
    assert LeBytes(words) == first + rest;
    if k == 0 {
      WordWeighs(w);
    } else {
      BytesWeigh(words[1..], k - 1, i - 4);
      Behind(first, rest, LeBytes(words), i);
    }
  }

  lemma Behind(first: seq<nat>, rest: seq<nat>, all: seq<nat>, i: nat)
    requires all == first + rest && |first| == 4 && 4 <= i && i + 4 <= |all|
    ensures Weight(all, i) == Weight(rest, i - 4) && AreBytes(all, i) == AreBytes(rest, i - 4)
  {
  }

  lemma {:induction false} BytesLength(words: Words)
    ensures |LeBytes(words)| == 4 * |words|
  {
    if words != [] {
      BytesLength(words[1..]);
    }
  }

  /** A block of bytes is read as the words that give those bytes, zeros behind it. */
  lemma BlockBytes(b: seq<Byte>, k: nat, i: nat)
    requires k < 16 && i == 4 * k && |b| <= 64
    ensures var r := LeBytes(BlockWords(b));
      && |r| == 64
      && r[i] == ByteAt(b, i) && r[i + 1] == ByteAt(b, i + 1) && r[i + 2] == ByteAt(b, i + 2) && r[i + 3] == ByteAt(b, i + 3)
  {
    var words := BlockWords(b);
    var p, q, r, s := ByteAt(b, i), ByteAt(b, i + 1), ByteAt(b, i + 2), ByteAt(b, i + 3);
    assert words[k] == p + 256 * q + 65536 * r + 16777216 * s;
    BytesWeigh(words, k, i);
    SameWeight(LeBytes(words), i, p, q, r, s);
  }

  lemma SameWeight(b: seq<nat>, i: nat, p: nat, q: nat, r: nat, s: nat)
    requires i + 4 <= |b| && AreBytes(b, i) && p < 256 && q < 256 && r < 256 && s < 256
    requires Weight(b, i) == p + 256 * q + 65536 * r + 16777216 * s
    ensures b[i] == p && b[i + 1] == q && b[i + 2] == r && b[i + 3] == s
  {
    OneByte(b[i], b[i + 1] + 256 * b[i + 2] + 65536 * b[i + 3], p, q + 256 * r + 65536 * s);
    OneByte(b[i + 1], b[i + 2] + 256 * b[i + 3], q, r + 256 * s);
    OneByte(b[i + 2], b[i + 3], r, s);
  }

  lemma OneByte(a: nat, x: nat, b: nat, y: nat)
    requires a < 256 && b < 256 && a + 256 * x == b + 256 * y
    ensures a == b && x == y
  {
  }

  /** What a block of a chunk is compressed with. */
  datatype Call = Call(counter: nat, len: nat, flags: nat)

  /** Is it how block k of a chunk of n bytes is compressed, the chunk's end put by
      if it is the last? */
  ghost predicate Called(c: Call, n: nat, counter: nat, k: nat) {
    && c.counter == counter && 64 * k + c.len <= n
    && (if k < Before(n) then c.len == 64 && c.flags < CHUNK_END else 64 * k + c.len == n && c.flags >= CHUNK_END)
    && (c.flags % 2 == CHUNK_START <==> k == 0) && c.flags < PARENT
  }

  /** A chunk is compressed block by block, all under its number, the first one as its
      start and the last one, which alone may be shorter, as its end: a function that
      agrees on these calls gives the same output. */
  lemma {:induction false} ChunkCalls(f: Compress, g: Compress, d: seq<Byte>, counter: nat, k: nat)
    requires k <= Before(|d|) && 64 * k <= |d|
    requires forall cv: Words, block: Words, len: nat, flags: nat, i: nat ::
      i < k && Called(Call(counter, len, flags), |d|, counter, i) ==> f(cv, block, counter, len, flags) == g(cv, block, counter, len, flags)
    ensures Absorb(f, d, counter, k) == Absorb(g, d, counter, k)
    ensures var o := ChunkOutput(f, d, counter);
      Called(Call(o.counter, o.blockLen, o.flags), |d|, counter, Before(|d|))
  {
    if k > 0 {
      ChunkCalls(f, g, d, counter, k - 1);
      assert Called(Call(counter, 64, if k == 1 then CHUNK_START else 0), |d|, counter, k - 1);
    }
  }

  /** No chaining value is compressed with the flag of the root. */
  lemma {:induction false} TreeFlags(f: Compress, cs: seq<Leaf>)
    requires cs != []
    ensures 0 < Tree(f, cs).flags < ROOT && (Tree(f, cs).flags >= PARENT <==> |cs| > 1)
  {
  }

  /** And the digest is that compression, with its counter at zero. */
  lemma DigestAtRoot(f: Compress, g: Compress, data: seq<Byte>)
    requires forall cv: Words, block: Words, counter: nat, len: nat, flags: nat ::
      flags < ROOT ==> f(cv, block, counter, len, flags) == g(cv, block, counter, len, flags)
    ensures var o := Tree(f, Chunks(data, 0));
      o == Tree(g, Chunks(data, 0)) && Hash(g, data) == LeBytes(g(o.cv, o.block, 0, o.blockLen, o.flags + ROOT))
  {
    SameTree(f, g, Chunks(data, 0));
  }

  lemma {:induction false} SameTree(f: Compress, g: Compress, cs: seq<Leaf>)
    requires cs != []
    requires forall cv: Words, block: Words, counter: nat, len: nat, flags: nat ::
      flags < ROOT ==> f(cv, block, counter, len, flags) == g(cv, block, counter, len, flags)
    ensures Tree(f, cs) == Tree(g, cs)
    decreases |cs|
  {
    if |cs| == 1 {
      SameAbsorb(f, g, cs[0].bytes, cs[0].number, Before(|cs[0].bytes|));
    } else {
      var k := KBelow(|cs|);
      SameTree(f, g, cs[..k]);
      SameTree(f, g, cs[k..]);
      TreeFlags(f, cs[..k]);
      TreeFlags(f, cs[k..]);
    }
  }

  lemma {:induction false} SameAbsorb(f: Compress, g: Compress, d: seq<Byte>, counter: nat, k: nat)
    requires 64 * k <= |d|
    requires forall cv: Words, block: Words, counter: nat, len: nat, flags: nat ::
      flags < ROOT ==> f(cv, block, counter, len, flags) == g(cv, block, counter, len, flags)
    ensures Absorb(f, d, counter, k) == Absorb(g, d, counter, k)
  {
    if k > 0 {
      SameAbsorb(f, g, d, counter, k - 1);
    }
  }
}
