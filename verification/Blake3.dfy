// BLAKE3 (sections 2.1 and 2.4 of its specification): the hash of a message is a
// binary tree over its 1024-byte chunks. The hasher sees the message in pieces
// and keeps a stack of finished subtrees; it arrives at the same tree. The
// compression function is a parameter.

module Blake3 {
  import opened Bits

  type Words = seq<nat>
  type Compress = (Words, Words, nat, nat, nat) -> Words

  const CHUNK_START := 1
  const CHUNK_END := 2
  const PARENT := 4
  const ROOT := 8
  const IV: Words := [0x6A09E667, 0xBB67AE85, 0x3C6EF372, 0xA54FF53A, 0x510E527F, 0x9B05688C, 0x1F83D9AB, 0x5BE0CD19]

  /** What is left to compress at a node of the tree. */
  datatype Output = Output(cv: Words, block: Words, counter: nat, blockLen: nat, flags: nat)

  function ChainingValue(f: Compress, o: Output): Words {
    f(o.cv, o.block, o.counter, o.blockLen, o.flags)
  }

  /** The first bytes of the root, least significant byte of each word first. */
  function RootBytes(f: Compress, o: Output): seq<nat> {
    LeBytes(f(o.cv, o.block, 0, o.blockLen, o.flags + ROOT))
  }

  function LeBytes(words: Words): seq<nat> {
    if words == [] then []
    else [words[0] % 256, words[0] / 256 % 256, words[0] / 65536 % 256, words[0] / 16777216 % 256] + LeBytes(words[1..])
  }

  function ByteAt(b: seq<Byte>, i: nat): nat {
    if i < |b| then b[i] else 0
  }

  /** The sixteen words of a block, which zeros fill up. */
  function BlockWords(b: seq<Byte>): Words {
    seq(16, i requires 0 <= i < 16 =>
      ByteAt(b, 4 * i) + 256 * ByteAt(b, 4 * i + 1) + 65536 * ByteAt(b, 4 * i + 2) + 16777216 * ByteAt(b, 4 * i + 3))
  }

  // ---- the tree

  /** The chaining value after the first k blocks of a chunk. */
  function Absorb(f: Compress, d: seq<Byte>, counter: nat, k: nat): Words
    requires 64 * k <= |d|
  {
    if k == 0 then IV
    else f(Absorb(f, d, counter, k - 1), BlockWords(d[64 * (k - 1)..64 * k]), counter, 64, if k == 1 then CHUNK_START else 0)
  }

  /** The blocks before a chunk's last. */
  function Before(n: nat): nat {
    if n == 0 then 0 else (n - 1) / 64
  }

  function ChunkOutput(f: Compress, d: seq<Byte>, counter: nat): Output {
    var k := Before(|d|);
    Output(Absorb(f, d, counter, k), BlockWords(d[64 * k..]), counter, |d| - 64 * k,
           (if k == 0 then CHUNK_START else 0) + CHUNK_END)
  }

  function Parent(left: Words, right: Words): Output {
    Output(IV, left + right, 0, 64, PARENT)
  }

  /** The largest power of two below n. */
  function KBelow(n: nat): (k: nat)
    requires n >= 2
    ensures 1 <= k < n
  {
    BitLenBounds(n - 1);
    Pow2Pos(BitLen(n - 1) - 1);
    Pow2(BitLen(n - 1) - 1)
  }

  /** A chunk and its number. */
  datatype Leaf = Leaf(number: nat, bytes: seq<Byte>)

  /** The tree over consecutive chunks: the left subtree is as large as a power of
      two allows. */
  function Tree(f: Compress, cs: seq<Leaf>): Output
    requires cs != []
    decreases |cs|
  {
    if |cs| == 1 then ChunkOutput(f, cs[0].bytes, cs[0].number)
    else
      var k := KBelow(|cs|);
      Parent(ChainingValue(f, Tree(f, cs[..k])), ChainingValue(f, Tree(f, cs[k..])))
  }

  /** A message in chunks of 1024 bytes, numbered from c; the last may be shorter. */
  function Chunks(data: seq<Byte>, c: nat): (cs: seq<Leaf>)
    ensures cs != []
  {
    if |data| <= 1024 then [Leaf(c, data)] else [Leaf(c, data[..1024])] + Chunks(data[1024..], c + 1)
  }

  function Hash(f: Compress, data: seq<Byte>): seq<nat> {
    RootBytes(f, Tree(f, Chunks(data, 0)))
  }

  // ---- the stack of finished subtrees

  /** The chaining value of the tree over some chunks. */
  function Value(f: Compress, run: seq<Leaf>): Words
    requires run != []
  {
    ChainingValue(f, Tree(f, run))
  }

  /** The chunks lo..hi, once there are so many. */
  function Cut(cs: seq<Leaf>, lo: nat, hi: nat): seq<Leaf> {
    if lo <= hi <= |cs| then cs[lo..hi] else []
  }

  /** Where n runs of 2^h chunks end that begin with chunk b. */
  function End(b: nat, n: nat, h: nat): (e: nat)
    ensures e >= b
  {
    ShlNat(n, h);
    b + Shl(n, h)
  }

  lemma Runs(b: nat, n: nat, h: nat)
    requires n > 0
    ensures b <= End(b, n - 1, h) < End(b, n, h) == End(b, n - 1, h) + Pow2(h)
    ensures End(b, n / 2, h + 1) == if n % 2 == 0 then End(b, n, h) else End(b, n - 1, h)
  {
    ShlLess(n - 1, n, h);
    ShlSum(n - 1, 1, h);
    ShlDouble(n / 2, h);
  }

  /** The subtrees that n runs of 2^h chunks are gathered into: one for every bit
      of n that is set, larger ones first. */
  function Stack(cs: seq<Leaf>, b: nat, n: nat, h: nat): seq<seq<Leaf>>
    decreases n, cs
  {
    if n == 0 then [] else Stack(cs, b, n / 2, h + 1) + Smallest(cs, b, n, h)
  }

  /** The subtree for the lowest bit, if that is set. */
  function Smallest(cs: seq<Leaf>, b: nat, n: nat, h: nat): seq<seq<Leaf>>
    requires n > 0
  {
    if n % 2 == 1 then [Cut(cs, End(b, n - 1, h), End(b, n, h))] else []
  }

  /** The values are those of the subtrees. */
  ghost predicate Holds(f: Compress, values: seq<Words>, runs: seq<seq<Leaf>>) {
    && |values| == |runs|
    && forall i :: 0 <= i < |runs| ==> runs[i] != [] && values[i] == Value(f, runs[i])
  }

  function PopCount(n: nat): nat {
    if n == 0 then 0 else PopCount(n / 2) + n % 2
  }

  /** The stack is as high as the number of chunks has bits set. */
  lemma {:induction false} StackHeight(cs: seq<Leaf>, b: nat, n: nat, h: nat)
    ensures |Stack(cs, b, n, h)| == PopCount(n)
    decreases n
  {
    if n > 0 {
      StackHeight(cs, b, n / 2, h + 1);
    }
  }

  /** Every subtree on it is perfect: its size is a power of two. */
  lemma {:induction false} StackPerfect(cs: seq<Leaf>, b: nat, n: nat, h: nat, i: nat) returns (k: nat)
    requires End(b, n, h) <= |cs| && i < |Stack(cs, b, n, h)|
    ensures |Stack(cs, b, n, h)[i]| == Pow2(k)
    decreases n
  {
    Runs(b, n, h);
    if i < |Stack(cs, b, n / 2, h + 1)| {
      k := StackPerfect(cs, b, n / 2, h + 1, i);
    } else {
      k := h;
    }
  }

  /** Later chunks do not change finished subtrees. */
  lemma {:induction false} StackStable(cs: seq<Leaf>, more: seq<Leaf>, b: nat, n: nat, h: nat)
    requires End(b, n, h) <= |cs|
    ensures Stack(cs + more, b, n, h) == Stack(cs, b, n, h)
    decreases n
  {
    if n > 0 {
      Runs(b, n, h);
      StackStable(cs, more, b, n / 2, h + 1);
      assert (cs + more)[End(b, n - 1, h)..End(b, n, h)] == cs[End(b, n - 1, h)..End(b, n, h)];
    }
  }

  lemma KBelowPow(h: nat, n: nat)
    requires Pow2(h) < n <= Pow2(h + 1) && n >= 2
    ensures KBelow(n) == Pow2(h)
  {
    BitLenUnique(n - 1, h + 1);
  }

  lemma TreeSplit(f: Compress, all: seq<Leaf>, p: nat, left: seq<Leaf>, right: seq<Leaf>)
    requires |all| >= 2 && p == KBelow(|all|) && left == all[..p] && right == all[p..]
    ensures left != [] && right != []
    ensures Tree(f, all) == Parent(ChainingValue(f, Tree(f, left)), ChainingValue(f, Tree(f, right)))
  {
  }

  /** Two neighbouring subtrees of one size make the next larger one. */
  lemma Merge(f: Compress, cs: seq<Leaf>, lo: nat, mid: nat, hi: nat, h: nat)
    requires mid == lo + Pow2(h) && hi == mid + Pow2(h) && hi <= |cs| && lo < mid < hi
    ensures Value(f, cs[lo..hi]) == ChainingValue(f, Parent(Value(f, cs[lo..mid]), Value(f, cs[mid..hi])))
  {
    var run := cs[lo..hi];
    KBelowPow(h, |run|);
    assert run[..mid - lo] == cs[lo..mid] && run[mid - lo..] == cs[mid..hi];
    TreeSplit(f, run, mid - lo, cs[lo..mid], cs[mid..hi]);
  }

  // ---- the stack and the tree

  /** The largest subtree on the stack, of 2^k runs, stands for the first chunks. */
  lemma {:induction false} TopFirst(cs: seq<Leaf>, b: nat, b': nat, n: nat, m: nat, h: nat, k: nat)
    requires n == m + Pow2(k) && m < Pow2(k) && b' == b + Pow2(h + k)
    ensures Stack(cs, b, n, h) == [Cut(cs, b, b')] + Stack(cs, b', m, h)
    decreases n
  {
    Aligned(b, b', n, m, h, k);
    if k == 0 {
      TopOne(cs, b, b', n, m, h);
    } else {
      Regrouped(n, m, k);
      TopFirst(cs, b, b', n / 2, m / 2, h + 1, k - 1);
      TopRest(cs, b, b', n, m, h, k);
    }
  }

  lemma TopOne(cs: seq<Leaf>, b: nat, b': nat, n: nat, m: nat, h: nat)
    requires n == 1 && m == 0 && b' == End(b, n, h)
    ensures Stack(cs, b, n, h) == [Cut(cs, b, b')] + Stack(cs, b', m, h)
  {
    ShlZero(h);
    assert End(b, n - 1, h) == b;
    assert Stack(cs, b, n / 2, h + 1) == [];
  }

  lemma Aligned(b: nat, b': nat, n: nat, m: nat, h: nat, k: nat)
    requires n == m + Pow2(k) && b' == b + Pow2(h + k)
    ensures End(b', m, h) == End(b, n, h)
  {
    ShlSum(m, Pow2(k), h);
    Pow2Shl(k, h);
    assert k + h == h + k;
  }

  lemma Regrouped(n: nat, m: nat, k: nat)
    requires k > 0 && n == m + Pow2(k)
    ensures n / 2 == m / 2 + Pow2(k - 1) && n % 2 == m % 2
  {
  }

  lemma TopRest(cs: seq<Leaf>, b: nat, b': nat, n: nat, m: nat, h: nat, k: nat)
    requires k > 0 && n == m + Pow2(k) && b' == b + Pow2(h + k)
    requires Stack(cs, b, n / 2, h + 1) == [Cut(cs, b, b')] + Stack(cs, b', m / 2, h + 1)
    ensures Stack(cs, b, n, h) == [Cut(cs, b, b')] + Stack(cs, b', m, h)
  {
    Regrouped(n, m, k);
    Pow2Pos(k);
    if m > 0 {
      Aligned(b, b', n, m, h, k);
      Aligned(b, b', n - 1, m - 1, h, k);
      assert Smallest(cs, b, n, h) == Smallest(cs, b', m, h);
    }
  }

  /** Joining the last chunk to the subtrees on the stack, the smallest first. */
  function Joined(f: Compress, stack: seq<Words>, last: Output): Output {
    if stack == [] then last else Parent(stack[0], ChainingValue(f, Joined(f, stack[1..], last)))
  }

  /** That gives the tree of all chunks. */
  lemma {:induction false} JoinedIsTree(f: Compress, cs: seq<Leaf>, last: Leaf, values: seq<Words>, b: nat, n: nat, h: nat)
    requires b + n == |cs| && h == 0 && Holds(f, values, Stack(cs, b, n, h))
    ensures Joined(f, values, ChunkOutput(f, last.bytes, last.number)) == Tree(f, cs[b..] + [last])
    decreases n
  {
    if n == 0 {
      assert cs[b..] + [last] == [last];
    } else {
      BitLenBounds(n);
      var k := BitLen(n) - 1;
      var b' := b + Pow2(k);
      var m := n - Pow2(k);
      Pow2Pos(k);
      assert h + k == k;
      TopFirst(cs, b, b', n, m, h, k);
      HoldsRest(f, values, Cut(cs, b, b'), Stack(cs, b', m, h));
      JoinedIsTree(f, cs, last, values[1..], b', m, h);
      SplitTree(f, cs, last, b, b', k);
    }
  }

  lemma HoldsRest(f: Compress, values: seq<Words>, first: seq<Leaf>, rest: seq<seq<Leaf>>)
    requires Holds(f, values, [first] + rest)
    ensures values != [] && Holds(f, values[1..], rest) && first != [] && values[0] == Value(f, first)
  {
    var all := [first] + rest;
    assert all[0] == first;
    forall i | 0 <= i < |rest|
      ensures rest[i] != [] && values[1..][i] == Value(f, rest[i])
    {
      assert all[i + 1] == rest[i];
    }
  }

  /** The tree over some chunks and a last one splits after the largest power of
      two of them. */
  lemma SplitTree(f: Compress, cs: seq<Leaf>, last: Leaf, b: nat, b': nat, k: nat)
    requires b < b' <= |cs| && b' == b + Pow2(k) && |cs| - b < Pow2(k + 1)
    ensures Tree(f, cs[b..] + [last]) == Parent(Value(f, cs[b..b']), ChainingValue(f, Tree(f, cs[b'..] + [last])))
  {
    var all := cs[b..] + [last];
    KBelowPow(k, |all|);
    assert all[..b' - b] == cs[b..b'] && all[b' - b..] == cs[b'..] + [last];
    TreeSplit(f, all, b' - b, cs[b..b'], cs[b'..] + [last]);
  }
}
