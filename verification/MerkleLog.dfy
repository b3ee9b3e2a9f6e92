// The Merkle tree of an append-only log (the shape of section 2.1 of RFC 6962) and
// its inclusion proofs. The two hashes, of a leaf and of an inner node, are
// parameters.

module MerkleLog {
  import opened Bits
  import opened Blake3

  datatype Option<T> = None | Some(value: T)

  /** Shifts a one up while it stays below n. */
  method PowerBelow(n: nat) returns (k: nat)
    requires n >= 2
    ensures k == KBelow(n)
  {
    k := 1;
    ghost var j: nat := 0;
    while 2 * k < n
      invariant k == Pow2(j) < n
      decreases n - k
    {
      k := 2 * k;
      j := j + 1;
    }
    KBelowPow(j, n);
  }

  /** What KBelow means: the largest power of two below n. */
  lemma KBelowLargest(n: nat, j: nat)
    requires n >= 2
    ensures KBelow(n) < n <= 2 * KBelow(n)
    ensures Pow2(j) < n ==> Pow2(j) <= KBelow(n)
  {
    BitLenBounds(n - 1);
    var b := BitLen(n - 1) - 1;
    if j > b {
      Pow2Less(b + 1, j);
    } else {
      Pow2Less(j, b);
    }
  }

  lemma {:induction false} Pow2Less(a: nat, b: nat)
    requires a <= b
    ensures Pow2(a) <= Pow2(b)
  {
    Pow2Pos(a);
    if a < b {
      Pow2Less(a, b - 1);
      Pow2Pos(b - 1);
    }
  }

  // ---- the tree and its proofs

  function TreeHash<H>(leaf: H -> H, node: (H, H) -> H, leaves: seq<H>): H
    requires leaves != []
    decreases |leaves|
  {
    if |leaves| == 1 then leaf(leaves[0])
    else
      var k := KBelow(|leaves|);
      node(TreeHash(leaf, node, leaves[..k]), TreeHash(leaf, node, leaves[k..]))
  }

  function LogRoot<H>(leaf: H -> H, node: (H, H) -> H, leaves: seq<H>): Option<H> {
    if leaves == [] then None else Some(TreeHash(leaf, node, leaves))
  }

  /** The siblings on the way from a leaf up to the root. */
  function AuditPath<H>(leaf: H -> H, node: (H, H) -> H, leaves: seq<H>, index: nat): seq<H>
    requires index < |leaves|
    decreases |leaves|
  {
    if |leaves| == 1 then []
    else
      var k := KBelow(|leaves|);
      if index < k then AuditPath(leaf, node, leaves[..k], index) + [TreeHash(leaf, node, leaves[k..])]
      else AuditPath(leaf, node, leaves[k..], index - k) + [TreeHash(leaf, node, leaves[..k])]
  }

  /** The root that a proof leads to, and what is left of the proof. */
  function Fold<H>(leaf: H -> H, node: (H, H) -> H, digest: H, index: int, size: nat, path: seq<H>): Option<(H, seq<H>)>
    requires size >= 1
    decreases size
  {
    if size == 1 then
      if index != 0 then None else Some((leaf(digest), path))
    else
      var k := KBelow(size);
      if index < k then
        var inner := Fold(leaf, node, digest, index, k, path);
        if inner.None? || inner.value.1 == [] then None
        else Some((node(inner.value.0, inner.value.1[0]), inner.value.1[1..]))
      else
        var inner := Fold(leaf, node, digest, index - k, size - k, path);
        if inner.None? || inner.value.1 == [] then None
        else Some((node(inner.value.1[0], inner.value.0), inner.value.1[1..]))
  }

  predicate ProofOk<H(==)>(leaf: H -> H, node: (H, H) -> H, digest: H, index: int, size: int, path: seq<H>, root: H) {
    if size <= 0 || index < 0 || index >= size then false
    else
      var folded := Fold(leaf, node, digest, index, size, path);
      folded.Some? && folded.value.1 == [] && folded.value.0 == root
  }

  // ---- what a proof proves

  /** The way up from a leaf: whether it, and each node above, is a left child. */
  function Turns(index: nat, size: nat): seq<bool>
    requires index < size
    decreases size
  {
    if size == 1 then []
    else
      var k := KBelow(size);
      if index < k then Turns(index, k) + [true] else Turns(index - k, size - k) + [false]
  }

  /** Two different inputs of a hash with one value. Leaves and nodes are hashed
      with different first bytes, so no leaf is the input of a node. */
  datatype Clash<H> = Leaves(x: H, y: H) | Nodes(a: H, b: H, c: H, d: H) | Mixed(z: H, e: H, f: H)

  ghost predicate IsClash<H>(leaf: H -> H, node: (H, H) -> H, c: Clash<H>) {
    match c
    case Leaves(x, y) => x != y && leaf(x) == leaf(y)
    case Nodes(a, b, c, d) => (a, b) != (c, d) && node(a, b) == node(c, d)
    case Mixed(z, e, f) => leaf(z) == node(e, f)
  }

  ghost predicate NoClash<H(!new)>(leaf: H -> H, node: (H, H) -> H) {
    forall c: Clash<H> :: !IsClash(leaf, node, c)
  }

  /** The path of a leaf leads to the root, from any place with the same turns, and
      whatever follows it. */
  lemma {:induction false} FoldPath<H>(leaf: H -> H, node: (H, H) -> H, leaves: seq<H>, i: nat, index: nat, size: nat, rest: seq<H>)
    requires i < |leaves| && index < size && Turns(index, size) == Turns(i, |leaves|)
    ensures Fold(leaf, node, leaves[i], index, size, AuditPath(leaf, node, leaves, i) + rest)
         == Some((TreeHash(leaf, node, leaves), rest))
    decreases |leaves|
  {
    if |leaves| > 1 {
      assert size > 1;
      var k, m := KBelow(|leaves|), KBelow(size);
      var left, right := leaves[..k], leaves[k..];
      TurnsApart(index, size, i, |leaves|);
      if i < k {
        var sibling := TreeHash(leaf, node, right);
        FoldPath(leaf, node, left, i, index, m, [sibling] + rest);
        Onto(AuditPath(leaf, node, left, i), sibling, rest);
      } else {
        var sibling := TreeHash(leaf, node, left);
        FoldPath(leaf, node, right, i - k, index - m, size - m, [sibling] + rest);
        Onto(AuditPath(leaf, node, right, i - k), sibling, rest);
      }
    } else {
      assert size == 1;
      assert [] + rest == rest;
    }
  }

  /** Places with the same turns are on the same side, with the same turns there. */
  lemma TurnsApart(index: nat, size: nat, i: nat, n: nat)
    requires index < size && i < n && size > 1 && n > 1
    ensures var m, k := KBelow(size), KBelow(n);
            Turns(index, size) == Turns(i, n)
            <==> (index < m <==> i < k)
                 && (if i < k then index < m && Turns(index, m) == Turns(i, k)
                     else index >= m && Turns(index - m, size - m) == Turns(i - k, n - k))
  {
    var m, k := KBelow(size), KBelow(n);
    var a := if index < m then Turns(index, m) else Turns(index - m, size - m);
    var b := if i < k then Turns(i, k) else Turns(i - k, n - k);
    assert Turns(index, size) == a + [index < m] && Turns(i, n) == b + [i < k];
    if a + [index < m] == b + [i < k] {
      assert |a| == |b| && (a + [index < m])[|a|] == (b + [i < k])[|a|];
      assert (a + [index < m])[..|a|] == a && (b + [i < k])[..|a|] == b;
    }
  }

  lemma Onto<H>(path: seq<H>, sibling: H, rest: seq<H>)
    ensures path + [sibling] + rest == path + ([sibling] + rest)
    ensures ([sibling] + rest)[0] == sibling && ([sibling] + rest)[1..] == rest
  {
  }

  /** The leaf that a proof is about, or a clash. */
  datatype Meeting<H> = At(i: nat) | Clashes(clash: Clash<H>)

  ghost predicate Meets<H>(leaf: H -> H, node: (H, H) -> H, leaves: seq<H>, digest: H, index: nat, size: nat,
                           path: seq<H>, rest: seq<H>, r: Meeting<H>)
    requires index < size
  {
    match r
    case At(i) =>
      && i < |leaves| && digest == leaves[i] && path == AuditPath(leaf, node, leaves, i) + rest
      && Turns(index, size) == Turns(i, |leaves|)
    case Clashes(c) => IsClash(leaf, node, c)
  }

  /** What leads to the root is a leaf of the log with its path and its turns, or the
      two ways to the root show a clash. */
  lemma {:induction false} FoldMeets<H>(leaf: H -> H, node: (H, H) -> H, leaves: seq<H>, digest: H, index: nat, size: nat,
                                        path: seq<H>, rest: seq<H>)
    returns (r: Meeting<H>)
    requires leaves != [] && index < size
    requires Fold(leaf, node, digest, index, size, path) == Some((TreeHash(leaf, node, leaves), rest))
    ensures Meets(leaf, node, leaves, digest, index, size, path, rest, r)
    decreases size
  {
    if size == 1 && |leaves| == 1 {
      r := if digest == leaves[0] then At(0) else Clashes(Leaves(digest, leaves[0]));
      assert path == [] + rest;
    } else if size == 1 {
      var k := KBelow(|leaves|);
      r := Clashes(Mixed(digest, TreeHash(leaf, node, leaves[..k]), TreeHash(leaf, node, leaves[k..])));
    } else {
      var m := KBelow(size);
      if index < m {
        var more := Fold(leaf, node, digest, index, m, path).value.1;
        r := ChildMeets(leaf, node, leaves, Fold(leaf, node, digest, index, m, path).value.0, more[0]);
        if r.At? {
          r := FoldMeets(leaf, node, leaves[..r.i], digest, index, m, path, more);
          LeftMeets(leaf, node, leaves, digest, index, size, path, more, rest, r);
        }
      } else {
        var more := Fold(leaf, node, digest, index - m, size - m, path).value.1;
        r := ChildMeets(leaf, node, leaves, more[0], Fold(leaf, node, digest, index - m, size - m, path).value.0);
        if r.At? {
          r := FoldMeets(leaf, node, leaves[r.i..], digest, index - m, size - m, path, more);
          RightMeets(leaf, node, leaves, digest, index, size, path, more, rest, r);
          r := if r.At? then At(r.i + KBelow(|leaves|)) else r;
        }
      }
    }
  }

  /** Two values that make the root are the tree's own two halves, or clash with them. */
  lemma ChildMeets<H>(leaf: H -> H, node: (H, H) -> H, leaves: seq<H>, l: H, r': H) returns (r: Meeting<H>)
    requires leaves != [] && node(l, r') == TreeHash(leaf, node, leaves)
    ensures r.At? ==>
              && |leaves| > 1 && r.i == KBelow(|leaves|)
              && l == TreeHash(leaf, node, leaves[..r.i]) && r' == TreeHash(leaf, node, leaves[r.i..])
    ensures r.Clashes? ==> IsClash(leaf, node, r.clash)
  {
    if |leaves| == 1 {
      return Clashes(Mixed(leaves[0], l, r'));
    }
    var k := KBelow(|leaves|);
    var lt, rt := TreeHash(leaf, node, leaves[..k]), TreeHash(leaf, node, leaves[k..]);
    r := if (l, r') == (lt, rt) then At(k) else Clashes(Nodes(l, r', lt, rt));
  }

  lemma LeftMeets<H>(leaf: H -> H, node: (H, H) -> H, leaves: seq<H>, digest: H, index: nat, size: nat,
                     path: seq<H>, more: seq<H>, rest: seq<H>, r: Meeting<H>)
    requires size > 1 && |leaves| > 1 && index < KBelow(size) && more != [] && more[1..] == rest
    requires more[0] == TreeHash(leaf, node, leaves[KBelow(|leaves|)..])
    requires Meets(leaf, node, leaves[..KBelow(|leaves|)], digest, index, KBelow(size), path, more, r)
    ensures Meets(leaf, node, leaves, digest, index, size, path, rest, r)
  {
    assert more == [more[0]] + rest;
    if r.At? {
      PathUp(leaf, node, leaves, r.i, path, more[0], rest);
      TurnsApart(index, size, r.i, |leaves|);
    }
  }

  lemma RightMeets<H>(leaf: H -> H, node: (H, H) -> H, leaves: seq<H>, digest: H, index: nat, size: nat,
                      path: seq<H>, more: seq<H>, rest: seq<H>, r: Meeting<H>)
    requires size > 1 && |leaves| > 1 && KBelow(size) <= index < size && more != [] && more[1..] == rest
    requires more[0] == TreeHash(leaf, node, leaves[..KBelow(|leaves|)])
    requires Meets(leaf, node, leaves[KBelow(|leaves|)..], digest, index - KBelow(size), size - KBelow(size), path, more, r)
    ensures Meets(leaf, node, leaves, digest, index, size, path, rest, if r.At? then At(r.i + KBelow(|leaves|)) else r)
  {
    assert more == [more[0]] + rest;
    if r.At? {
      PathUp(leaf, node, leaves, r.i + KBelow(|leaves|), path, more[0], rest);
      TurnsApart(index, size, r.i + KBelow(|leaves|), |leaves|);
    }
  }

  /** The path of a leaf in its half, and the other half. */
  lemma PathUp<H>(leaf: H -> H, node: (H, H) -> H, leaves: seq<H>, i: nat, path: seq<H>, sibling: H, rest: seq<H>)
    requires i < |leaves| && |leaves| > 1
    requires var k := KBelow(|leaves|);
             if i < k then path == AuditPath(leaf, node, leaves[..k], i) + ([sibling] + rest) && sibling == TreeHash(leaf, node, leaves[k..])
             else path == AuditPath(leaf, node, leaves[k..], i - k) + ([sibling] + rest) && sibling == TreeHash(leaf, node, leaves[..k])
    ensures path == AuditPath(leaf, node, leaves, i) + rest
  {
    var k := KBelow(|leaves|);
    Onto(if i < k then AuditPath(leaf, node, leaves[..k], i) else AuditPath(leaf, node, leaves[k..], i - k), sibling, rest);
  }

  /** Whatever the hashes: an accepted proof is that of a leaf of the log, with its
      path and turns, or it comes with a clash. */
  lemma ProofMeets<H>(leaf: H -> H, node: (H, H) -> H, leaves: seq<H>, digest: H, index: int, size: int, path: seq<H>)
    returns (r: Meeting<H>)
    requires leaves != [] && ProofOk(leaf, node, digest, index, size, path, TreeHash(leaf, node, leaves))
    ensures r.At? ==> ProofOf(leaf, node, leaves, digest, index, size, path, r.i)
    ensures r.Clashes? ==> IsClash(leaf, node, r.clash)
  {
    r := FoldMeets(leaf, node, leaves, digest, index, size, path, []);
    if r.At? {
      assert AuditPath(leaf, node, leaves, r.i) + [] == AuditPath(leaf, node, leaves, r.i);
    }
  }

  /** It is the proof of leaf i, at a place with the same turns. */
  ghost predicate ProofOf<H>(leaf: H -> H, node: (H, H) -> H, leaves: seq<H>, digest: H, index: int, size: int, path: seq<H>, i: nat) {
    && 0 <= index < size && i < |leaves|
    && digest == leaves[i] && path == AuditPath(leaf, node, leaves, i) && Turns(index, size) == Turns(i, |leaves|)
  }

  /** Exactly the proofs of leaves are accepted, for every index and size claimed. */
  lemma ProofAccepted<H(!new)>(leaf: H -> H, node: (H, H) -> H, leaves: seq<H>, digest: H, index: int, size: int, path: seq<H>)
    requires NoClash(leaf, node) && leaves != []
    ensures ProofOk(leaf, node, digest, index, size, path, TreeHash(leaf, node, leaves))
       <==> exists i: nat :: ProofOf(leaf, node, leaves, digest, index, size, path, i)
  {
    if ProofOk(leaf, node, digest, index, size, path, TreeHash(leaf, node, leaves)) {
      var r := ProofMeets(leaf, node, leaves, digest, index, size, path);
    } else if i: nat :| ProofOf(leaf, node, leaves, digest, index, size, path, i) {
      ProofComplete(leaf, node, leaves, i, index, size);
    }
  }

  /** Completeness needs nothing of the hashes. */
  lemma ProofComplete<H>(leaf: H -> H, node: (H, H) -> H, leaves: seq<H>, i: nat, index: nat, size: nat)
    requires i < |leaves| && index < size && Turns(index, size) == Turns(i, |leaves|)
    ensures ProofOk(leaf, node, leaves[i], index, size, AuditPath(leaf, node, leaves, i), TreeHash(leaf, node, leaves))
  {
    FoldPath(leaf, node, leaves, i, index, size, []);
    assert AuditPath(leaf, node, leaves, i) + [] == AuditPath(leaf, node, leaves, i);
  }

  /** In a tree of one size the turns tell the leaves apart. */
  lemma {:induction false} TurnsTell(i: nat, j: nat, size: nat)
    requires i < size && j < size && Turns(i, size) == Turns(j, size)
    ensures i == j
    decreases size
  {
    if size > 1 {
      var k := KBelow(size);
      TurnsApart(i, size, j, size);
      if i < k {
        TurnsTell(i, j, k);
      } else {
        TurnsTell(i - k, j - k, size - k);
      }
    }
  }

  /** At the log's own size, which is the one that a bundle is checked at, one proof
      is accepted for an index: its leaf with its path. */
  lemma ProofExact<H(!new)>(leaf: H -> H, node: (H, H) -> H, leaves: seq<H>, digest: H, index: int, path: seq<H>)
    requires NoClash(leaf, node) && leaves != []
    ensures ProofOk(leaf, node, digest, index, |leaves|, path, TreeHash(leaf, node, leaves))
       <==> 0 <= index < |leaves| && digest == leaves[index] && path == AuditPath(leaf, node, leaves, index)
  {
    var n := |leaves|;
    ProofAccepted(leaf, node, leaves, digest, index, n, path);
    if i: nat :| ProofOf(leaf, node, leaves, digest, index, n, path, i) {
      TurnsTell(index, i, n);
    }
    if 0 <= index < n {
      assert ProofOf(leaf, node, leaves, leaves[index], index, n, AuditPath(leaf, node, leaves, index), index);
    }
  }

  /** Two logs with one root are one log, of whatever sizes, or show a clash. */
  lemma {:induction false} RootBinds<H>(leaf: H -> H, node: (H, H) -> H, a: seq<H>, b: seq<H>) returns (c: Option<Clash<H>>)
    requires LogRoot(leaf, node, a) == LogRoot(leaf, node, b)
    ensures c.None? ==> a == b
    ensures c.Some? ==> IsClash(leaf, node, c.value)
    decreases |a|
  {
    c := None;
    if a == [] {
      return;
    }
    var k, m := if |a| > 1 then KBelow(|a|) else 0, if |b| > 1 then KBelow(|b|) else 0;
    if |a| == 1 && |b| == 1 {
      if a[0] != b[0] {
        c := Some(Leaves(a[0], b[0]));
      }
    } else if |a| == 1 {
      c := Some(Mixed(a[0], TreeHash(leaf, node, b[..m]), TreeHash(leaf, node, b[m..])));
    } else if |b| == 1 {
      c := Some(Mixed(b[0], TreeHash(leaf, node, a[..k]), TreeHash(leaf, node, a[k..])));
    } else {
      c := InnerBinds(leaf, node, a, b, k, m);
    }
  }

  lemma {:induction false} InnerBinds<H>(leaf: H -> H, node: (H, H) -> H, a: seq<H>, b: seq<H>, k: nat, m: nat)
    returns (c: Option<Clash<H>>)
    requires |a| > 1 && |b| > 1 && k == KBelow(|a|) && m == KBelow(|b|)
    requires TreeHash(leaf, node, a) == TreeHash(leaf, node, b)
    ensures c.None? ==> a == b
    ensures c.Some? ==> IsClash(leaf, node, c.value)
    decreases |a|, 0
  {
    var al, ar, bl, br := TreeHash(leaf, node, a[..k]), TreeHash(leaf, node, a[k..]), TreeHash(leaf, node, b[..m]), TreeHash(leaf, node, b[m..]);
    if (al, ar) != (bl, br) {
      return Some(Nodes(al, ar, bl, br));
    }
    c := RootBinds(leaf, node, a[..k], b[..m]);
    if c.None? {
      c := RootBinds(leaf, node, a[k..], b[m..]);
      assert a == a[..k] + a[k..] && b == b[..m] + b[m..];
    }
  }

  /** So neither the size nor the index a proof claims is proved by it: with three
      leaves, the first one's proof is good for a log of four, and the last one's for
      the second of two. */
  lemma PlaceIsNotProved<H>(leaf: H -> H, node: (H, H) -> H, a: H, b: H, c: H)
    ensures ProofOk(leaf, node, a, 0, 4, AuditPath(leaf, node, [a, b, c], 0), TreeHash(leaf, node, [a, b, c]))
    ensures ProofOk(leaf, node, c, 1, 2, AuditPath(leaf, node, [a, b, c], 2), TreeHash(leaf, node, [a, b, c]))
  {
    assert Pow2(1) == 2 && Pow2(0) == 1 && Pow2(2) == 4;
    KBelowPow(1, 3);
    KBelowPow(1, 4);
    KBelowPow(0, 2);
    assert Turns(0, 4) == Turns(0, 3) == [true, true] && Turns(1, 2) == Turns(2, 3) == [false];
    ProofComplete(leaf, node, [a, b, c], 0, 0, 4);
    ProofComplete(leaf, node, [a, b, c], 2, 1, 2);
  }
}
