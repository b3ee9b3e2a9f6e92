// The incremental hasher: a chunk in progress and a stack of finished subtrees.
// However a message is cut into updates, the digest is the hash of its tree.

module Blake3Hasher {
  import opened Bits
  import opened Blake3

  class Chunk {
    const f: Compress
    const counter: nat
    var cv: Words
    var block: array<Byte>
    var blockLen: nat
    var blocksCompressed: nat
    ghost var bytes: seq<Byte>

    /** The last block is not compressed until there is more. */
    ghost predicate Valid()
      reads this, block
    {
      && block.Length == 64 && blockLen <= 64 && |bytes| <= 1024
      && blocksCompressed == Before(|bytes|) && |bytes| == 64 * blocksCompressed + blockLen
      && block[..blockLen] == bytes[64 * blocksCompressed..]
      && cv == Absorb(f, bytes, counter, blocksCompressed)
    }

    constructor (f: Compress, counter: nat)
      ensures Valid() && bytes == [] && blocksCompressed == 0 && blockLen == 0
      ensures this.f == f && this.counter == counter && fresh(block)
    {
      this.f := f;
      this.counter := counter;
      cv := IV;
      block := new Byte[64](_ => 0);
      blockLen, blocksCompressed := 0, 0;
      bytes := [];
    }

    function Length(): nat
      reads this
    {
      64 * blocksCompressed + blockLen
    }

    function StartFlag(): nat
      reads this
    {
      if blocksCompressed == 0 then CHUNK_START else 0
    }

    method Update(data: seq<Byte>)
      requires Valid() && |bytes| + |data| <= 1024
      modifies this, block
      ensures Valid() && bytes == old(bytes) + data
      ensures block == old(block) || fresh(block)
    {
      var offset := 0;
      assert bytes == old(bytes) + data[..0];
      while offset < |data|
        invariant offset <= |data| && Valid() && bytes == old(bytes) + data[..offset]
        invariant block == old(block) || fresh(block)
      {
        if blockLen == 64 {
          CompressBlock();
        }
        var take := if 64 - blockLen < |data| - offset then 64 - blockLen else |data| - offset;
        var upto := offset + take;
        Take(data[offset..upto], take);
        Longer(old(bytes), data, offset, upto);
        offset := upto;
      }
      assert data[..offset] == data;
    }

    /** A full block goes into the chaining value; the block is empty for a while. */
    method CompressBlock()
      requires Valid() && blockLen == 64
      modifies this
      ensures Loose() && blockLen == 0 && bytes == old(bytes) && fresh(block)
    {
      FullBlock(f, bytes, counter, blocksCompressed);
      assert block[..] == block[..blockLen];
      cv := f(cv, BlockWords(block[..]), counter, 64, StartFlag());
      blocksCompressed := blocksCompressed + 1;
      block := new Byte[64](_ => 0);
      blockLen := 0;
    }

    /** Valid but for an empty last block. */
    ghost predicate Loose()
      reads this, block
    {
      && block.Length == 64 && blockLen < 64 && |bytes| <= 1024
      && |bytes| == 64 * blocksCompressed + blockLen
      && block[..blockLen] == bytes[64 * blocksCompressed..]
      && cv == Absorb(f, bytes, counter, blocksCompressed)
    }

    method Take(part: seq<Byte>, take: nat)
      requires Loose() && take == |part| > 0 && blockLen + take <= 64 && |bytes| + take <= 1024
      modifies this`blockLen, this`bytes, block
      ensures Valid() && bytes == old(bytes) + part
    {
      ghost var was := block[..blockLen];
      for i := 0 to take
        invariant block[..blockLen] == was
        invariant block[blockLen..blockLen + i] == part[..i]
        modifies block
      {
        block[blockLen + i] := part[i];
      }
      assert block[..blockLen + take] == was + part;
      AbsorbMore(f, bytes, part, counter, blocksCompressed);
      blockLen := blockLen + take;
      bytes := bytes + part;
    }

    method Finish() returns (o: Output)
      requires Valid()
      ensures o == ChunkOutput(f, bytes, counter)
    {
      o := Output(cv, BlockWords(block[..blockLen]), counter, blockLen, StartFlag() + CHUNK_END);
    }
  }

  lemma Longer(before: seq<Byte>, s: seq<Byte>, i: nat, j: nat)
    requires i <= j <= |s|
    ensures before + s[..i] + s[i..j] == before + s[..j]
  {
    assert s[..i] + s[i..j] == s[..j];
  }

  lemma FullBlock(f: Compress, d: seq<Byte>, counter: nat, k: nat)
    requires |d| == 64 * (k + 1)
    ensures Absorb(f, d, counter, k + 1)
         == f(Absorb(f, d, counter, k), BlockWords(d[64 * k..]), counter, 64, if k == 0 then CHUNK_START else 0)
  {
    assert d[64 * k..64 * (k + 1)] == d[64 * k..];
  }

  /** Bytes to come do not change the blocks before them. */
  lemma {:induction false} AbsorbMore(f: Compress, d: seq<Byte>, more: seq<Byte>, counter: nat, k: nat)
    requires 64 * k <= |d|
    ensures Absorb(f, d + more, counter, k) == Absorb(f, d, counter, k)
  {
    if k > 0 {
      AbsorbMore(f, d, more, counter, k - 1);
      assert (d + more)[64 * (k - 1)..64 * k] == d[64 * (k - 1)..64 * k];
    }
  }

  // ---- chunks in a row

  function Flat(cs: seq<Leaf>): seq<Byte> {
    if cs == [] then [] else cs[0].bytes + Flat(cs[1..])
  }

  ghost predicate Full(cs: seq<Leaf>, c: nat) {
    forall i :: 0 <= i < |cs| ==> cs[i].number == c + i && |cs[i].bytes| == 1024
  }

  lemma {:induction false} FlatSnoc(cs: seq<Leaf>, last: Leaf)
    ensures Flat(cs + [last]) == Flat(cs) + last.bytes
  {
    if cs == [] {
      assert [] + [last] == [last] && [last][1..] == [];
    } else {
      FlatSnoc(cs[1..], last);
      assert (cs + [last])[1..] == cs[1..] + [last];
    }
  }

  /** Full chunks and a last one that is not empty are the chunks of what they hold. */
  lemma {:induction false} ChunksOf(cs: seq<Leaf>, last: seq<Byte>, c: nat)
    requires Full(cs, c) && |last| <= 1024 && (last == [] ==> cs == [])
    ensures Chunks(Flat(cs) + last, c) == cs + [Leaf(c + |cs|, last)]
    decreases |cs|
  {
    var data := Flat(cs) + last;
    if cs == [] {
      assert data == last;
    } else {
      ChunksOf(cs[1..], last, c + 1);
      var rest := Flat(cs[1..]) + last;
      assert data == cs[0].bytes + rest;
      assert data[..1024] == cs[0].bytes && data[1024..] == rest;
      assert |rest| > 0 by {
        if cs[1..] != [] {
          assert |cs[1].bytes| == 1024;
        }
      }
      assert cs[0] == Leaf(c, cs[0].bytes);
      assert cs == [cs[0]] + cs[1..];
    }
  }

  // ---- a finished chunk joins the stack

  /** A subtree of 2^h chunks waits to join a stack of the n - 1 runs before it,
      which will make the stack of all. */
  ghost predicate Waiting(f: Compress, cs: seq<Leaf>, stack: seq<Words>, cv: Words, b: nat, n: nat, h: nat, all: seq<seq<Leaf>>) {
    && n > 0 && all == Stack(cs, b, n, h) && Holds(f, stack, Stack(cs, b, n - 1, h))
    && End(b, n, h) == |cs| && End(b, n - 1, h) < |cs| && cv == Value(f, cs[End(b, n - 1, h)..])
  }

  /** With an even number of runs its equal is on top, and the two become one. */
  lemma PushEven(f: Compress, cs: seq<Leaf>, stack: seq<Words>, cv: Words, b: nat, n: nat, half: nat, h: nat, all: seq<seq<Leaf>>)
    requires Waiting(f, cs, stack, cv, b, n, h, all) && n == 2 * half
    ensures stack != []
    ensures Waiting(f, cs, stack[..|stack| - 1], ChainingValue(f, Parent(stack[|stack| - 1], cv)), b, half, h + 1, all)
  {
    var lo, mid, hi := EvenStack(cs, b, n, half, h);
    HoldsFront(f, stack, Stack(cs, b, half - 1, h + 1), cs[lo..mid]);
    assert cs[mid..] == cs[mid..hi] && cs[lo..] == cs[lo..hi];
    Merge(f, cs, lo, mid, hi, h);
  }

  lemma EvenStack(cs: seq<Leaf>, b: nat, n: nat, half: nat, h: nat) returns (lo: nat, mid: nat, hi: nat)
    requires n == 2 * half > 0 && End(b, n, h) <= |cs|
    ensures lo == End(b, half - 1, h + 1) && mid == End(b, n - 1, h) && hi == End(b, n, h) == End(b, half, h + 1)
    ensures mid == lo + Pow2(h) && hi == mid + Pow2(h) && lo < mid < hi
    ensures Stack(cs, b, n - 1, h) == Stack(cs, b, half - 1, h + 1) + [cs[lo..mid]]
    ensures Stack(cs, b, n, h) == Stack(cs, b, half, h + 1)
  {
    lo, mid, hi := End(b, n - 2, h), End(b, n - 1, h), End(b, n, h);
    Runs(b, n, h);
    Runs(b, n - 1, h);
    assert n / 2 == half && (n - 1) / 2 == half - 1;
  }

  lemma HoldsFront(f: Compress, values: seq<Words>, front: seq<seq<Leaf>>, top: seq<Leaf>)
    requires Holds(f, values, front + [top])
    ensures values != [] && Holds(f, values[..|values| - 1], front)
    ensures top != [] && values[|values| - 1] == Value(f, top)
  {
    var all := front + [top];
    assert all[|front|] == top;
    forall i | 0 <= i < |front|
      ensures front[i] != [] && values[..|values| - 1][i] == Value(f, front[i])
    {
      assert all[i] == front[i];
    }
  }

  lemma PushOdd(f: Compress, cs: seq<Leaf>, stack: seq<Words>, cv: Words, b: nat, n: nat, h: nat, all: seq<seq<Leaf>>)
    requires Waiting(f, cs, stack, cv, b, n, h, all) && n % 2 == 1
    ensures Holds(f, stack + [cv], all)
  {
    var mid, hi := End(b, n - 1, h), End(b, n, h);
    OddStack(cs, b, n, h);
    assert cs[mid..] == cs[mid..hi];
  }

  lemma OddStack(cs: seq<Leaf>, b: nat, n: nat, h: nat)
    requires n % 2 == 1
    ensures Stack(cs, b, n, h) == Stack(cs, b, n - 1, h) + [Cut(cs, End(b, n - 1, h), End(b, n, h))]
  {
    assert n / 2 == (n - 1) / 2;
    if n == 1 {
      assert Stack(cs, b, n / 2, h + 1) == [];
    } else {
      assert Smallest(cs, b, n - 1, h) == [];
    }
  }

  lemma NoRuns(f: Compress, cs: seq<Leaf>, b: nat, n: nat, h: nat)
    requires n == 0
    ensures Holds(f, [], Stack(cs, b, n, h))
  {
  }

  lemma LeafValue(f: Compress, cs: seq<Leaf>, last: Leaf)
    ensures Value(f, (cs + [last])[|cs|..]) == ChainingValue(f, ChunkOutput(f, last.bytes, last.number))
  {
    assert (cs + [last])[|cs|..] == [last];
  }

  class Hasher {
    const f: Compress
    var chunk: Chunk
    var stack: seq<Words>
    ghost var done: seq<Leaf>
    ghost var data: seq<Byte>

    /** All chunks but the one in progress are full, and on the stack. */
    ghost predicate Loose()
      reads this, chunk, chunk.block
    {
      && chunk.Valid() && chunk.f == f && chunk.counter == |done|
      && Full(done, 0) && data == Flat(done) + chunk.bytes
      && Holds(f, stack, Stack(done, 0, |done|, 0))
    }

    /** The chunk in progress is empty only for an empty message. */
    ghost predicate Valid()
      reads this, chunk, chunk.block
    {
      Loose() && (chunk.bytes == [] ==> done == [])
    }

    constructor (f: Compress)
      ensures Valid() && data == [] && this.f == f && fresh(chunk) && fresh(chunk.block)
    {
      this.f := f;
      chunk := new Chunk(f, 0);
      stack, done, data := [], [], [];
      new;
      NoRuns(f, done, 0, |done|, 0);
    }

    method Update(more: seq<Byte>)
      requires Valid()
      modifies this, chunk, chunk.block
      ensures Valid() && data == old(data) + more
      ensures chunk == old(chunk) || fresh(chunk)
      ensures chunk.block == old(chunk.block) || fresh(chunk.block)
    {
      var offset := 0;
      assert data == old(data) + more[..0];
      while offset < |more|
        invariant offset <= |more| && Valid() && data == old(data) + more[..offset]
        invariant chunk == old(chunk) || fresh(chunk)
        invariant chunk.block == old(chunk.block) || fresh(chunk.block)
      {
        if chunk.Length() == 1024 {
          NextChunk();
        }
        var take := if 1024 - chunk.Length() < |more| - offset then 1024 - chunk.Length() else |more| - offset;
        var upto := offset + take;
        Feed(more[offset..upto]);
        Longer(old(data), more, offset, upto);
        offset := upto;
      }
      assert more[..offset] == more;
    }

    method Feed(part: seq<Byte>)
      requires Loose() && part != [] && |chunk.bytes| + |part| <= 1024
      modifies this`data, chunk, chunk.block
      ensures Valid() && data == old(data) + part && chunk == old(chunk)
      ensures chunk.block == old(chunk.block) || fresh(chunk.block)
    {
      chunk.Update(part);
      data := data + part;
    }

    /** The full chunk is finished and a new one begun. */
    method NextChunk()
      requires Valid() && |chunk.bytes| == 1024
      modifies this
      ensures Loose() && data == old(data) && chunk.bytes == [] && fresh(chunk) && fresh(chunk.block)
    {
      ghost var last := Leaf(|done|, chunk.bytes);
      var o := chunk.Finish();
      var cv := ChainingValue(f, o);
      var total := chunk.counter + 1;
      LeafValue(f, done, last);
      StackStable(done, [last], 0, |done|, 0);
      FlatSnoc(done, last);
      Push(cv, total, done + [last], 0, 0, Stack(done + [last], 0, total, 0));
      chunk := new Chunk(f, total);
      done := done + [last];
    }

    method MergeTop(cv0: Words) returns (cv: Words)
      requires stack != []
      modifies this`stack
      ensures stack == old(stack[..|stack| - 1])
      ensures cv == ChainingValue(f, Parent(old(stack[|stack| - 1]), cv0))
    {
      var top := stack[|stack| - 1];
      stack := stack[..|stack| - 1];
      cv := ChainingValue(f, Parent(top, cv0));
    }

    method PushStep(cv0: Words, n: nat, ghost cs: seq<Leaf>, ghost b: nat, ghost h: nat, ghost all: seq<seq<Leaf>>)
      returns (cv: Words, half: nat)
      requires Waiting(f, cs, stack, cv0, b, n, h, all) && n % 2 == 0
      modifies this`stack
      ensures 0 < half < n && Waiting(f, cs, stack, cv, b, half, h + 1, all)
    {
      half := n / 2;
      PushEven(f, cs, stack, cv0, b, n, half, h, all);
      cv := MergeTop(cv0);
    }

    method PushLast(cv: Words, ghost cs: seq<Leaf>, ghost b: nat, ghost n: nat, ghost h: nat, ghost all: seq<seq<Leaf>>)
      requires Waiting(f, cs, stack, cv, b, n, h, all) && n % 2 == 1
      modifies this`stack
      ensures Holds(f, stack, all)
    {
      PushOdd(f, cs, stack, cv, b, n, h, all);
      stack := stack + [cv];
    }

    /** Merges finished subtrees of equal size; every one it needs is there. */
    method Push(cv0: Words, total0: nat, ghost cs: seq<Leaf>, ghost b: nat, ghost h0: nat, ghost all: seq<seq<Leaf>>)
      requires Waiting(f, cs, stack, cv0, b, total0, h0, all)
      modifies this`stack
      ensures Holds(f, stack, all)
    {
      var cv, total := cv0, total0;
      ghost var h := h0;
      while total % 2 == 0
        invariant Waiting(f, cs, stack, cv, b, total, h, all)
        decreases total
      {
        cv, total := PushStep(cv, total, cs, b, h, all);
        h := h + 1;
      }
      PushLast(cv, cs, b, total, h, all);
    }

    /** The digest of all that was fed in, which the hasher does not forget. */
    method Digest() returns (d: seq<nat>)
      requires Valid()
      ensures d == Hash(f, data)
    {
      var output := chunk.Finish();
      ghost var last := output;
      var i := |stack|;
      assert stack[i..] == [];
      while i > 0
        invariant 0 <= i <= |stack| && output == Joined(f, stack[i..], last)
      {
        i := i - 1;
        assert stack[i..][1..] == stack[i + 1..];
        output := Parent(stack[i], ChainingValue(f, output));
      }
      assert stack[0..] == stack;
      DigestIsTree(f, done, chunk.bytes, stack, 0, 0);
      d := RootBytes(f, output);
    }
  }

  lemma DigestIsTree(f: Compress, done: seq<Leaf>, last: seq<Byte>, values: seq<Words>, b: nat, h: nat)
    requires Full(done, b) && |last| <= 1024 && (last == [] ==> done == []) && b == 0 && h == 0
    requires Holds(f, values, Stack(done, b, |done|, h))
    ensures Joined(f, values, ChunkOutput(f, last, |done|)) == Tree(f, Chunks(Flat(done) + last, b))
  {
    ChunksOf(done, last, b);
    JoinedIsTree(f, done, Leaf(|done|, last), values, b, |done|, h);
    assert done[b..] == done;
  }

  /** A message fed in any pieces hashes as it does in one. */
  method HashPieces(f: Compress, pieces: seq<seq<Byte>>) returns (d: seq<nat>)
    ensures d == Hash(f, Concat(pieces))
  {
    var h := new Hasher(f);
    for i := 0 to |pieces|
      invariant h.Valid() && h.f == f && h.data == Concat(pieces[..i]) && fresh(h) && fresh(h.chunk) && fresh(h.chunk.block)
    {
      ConcatUpto(pieces, i);
      h.Update(pieces[i]);
    }
    assert pieces[..|pieces|] == pieces;
    d := h.Digest();
  }

  function Concat(pieces: seq<seq<Byte>>): seq<Byte> {
    if pieces == [] then [] else pieces[0] + Concat(pieces[1..])
  }

  lemma ConcatUpto(pieces: seq<seq<Byte>>, i: nat)
    requires i < |pieces|
    ensures Concat(pieces[..i + 1]) == Concat(pieces[..i]) + pieces[i]
  {
    ConcatSnoc(pieces[..i], pieces[i]);
    assert pieces[..i] + [pieces[i]] == pieces[..i + 1];
  }

  lemma {:induction false} ConcatSnoc(pieces: seq<seq<Byte>>, last: seq<Byte>)
    ensures Concat(pieces + [last]) == Concat(pieces) + last
  {
    if pieces == [] {
      assert [] + [last] == [last] && [last][1..] == [];
    } else {
      ConcatSnoc(pieces[1..], last);
      assert (pieces + [last])[1..] == pieces[1..] + [last];
    }
  }
}
