// The enumeration of pulse vectors (RFC 6716, section 4.3.4.2): the integer
// vectors of length n whose absolute values add up to k are numbered 0 up to
// V(n, k), one number each.

module OpusPvq {
  import opened Bits
  import opened OpusModel
  import opened OpusEncoder
  import opened OpusDecoder
  import OpusRoundTrip

  /** How many vectors of length n have sum k, those left out whose first
      non-zero entry is negative; U(n, k) == U(k, n). */
  function U(n: nat, k: nat): nat
    decreases n + k
  {
    if n == 0 && k == 0 then 1
    else if n == 0 || k == 0 then 0
    else U(n - 1, k) + U(n, k - 1) + U(n - 1, k - 1)
  }

  /** How many vectors of length n have sum k. */
  function V(n: nat, k: nat): nat {
    U(n, k) + U(n, k + 1)
  }

  lemma {:induction false} USymmetric(n: nat, k: nat)
    ensures U(n, k) == U(k, n)
    decreases n + k
  {
    if n > 0 && k > 0 {
      USymmetric(n - 1, k);
      USymmetric(n, k - 1);
      USymmetric(n - 1, k - 1);
    }
  }

  /** The table holds each value once, below the diagonal. */
  function Cell(row: nat, col: nat): nat
    requires row <= col
  {
    U(row, col)
  }

  function PvqU(n: nat, k: nat): (u: nat)
    ensures u == U(n, k)
  {
    USymmetric(n, k);
    if n > k then Cell(k, n) else Cell(n, k)
  }

  lemma UStep(n: nat, k: nat)
    requires n >= 1
    ensures U(n, k + 1) == U(n, k) + V(n - 1, k)
  {
  }

  lemma {:induction false} UMono(n: nat, j: nat, k: nat)
    requires n >= 1 && j <= k
    ensures U(n, j) <= U(n, k)
    decreases k
  {
    if j < k {
      UMono(n, j, k - 1);
      UStep(n, k - 1);
    }
  }

  lemma {:induction false} UOne(n: nat, k: nat)
    requires n == 1
    ensures U(n, k) == if k == 0 then 0 else 1
    decreases k
  {
    if k > 1 {
      UOne(n, k - 1);
    }
  }

  lemma {:induction false} UTwo(n: nat, k: nat)
    requires n == 2
    ensures U(n, k) == if k == 0 then 0 else 2 * k - 1
    decreases k
  {
    if k > 0 {
      UTwo(n, k - 1);
      UOne(n - 1, k);
      UOne(n - 1, k - 1);
    }
  }

  // ---- numbering

  function Abs(x: int): nat {
    if x < 0 then -x else x
  }

  function Sum(y: seq<int>): nat {
    if y == [] then 0 else Abs(y[0]) + Sum(y[1..])
  }

  /** The number of a vector among those of its length and sum. */
  function Index(y: seq<int>): nat
    requires |y| >= 1
  {
    if |y| == 1 then (if y[0] < 0 then 1 else 0)
    else Index(y[1..]) + U(|y|, Sum(y[1..])) + (if y[0] < 0 then U(|y|, Sum(y) + 1) else 0)
  }

  lemma {:induction false} IndexBound(y: seq<int>)
    requires |y| >= 1
    ensures Index(y) < V(|y|, Sum(y))
  {
    var n, k := |y|, Sum(y);
    if n > 1 {
      IndexBound(y[1..]);
      UStep(n, Sum(y[1..]));
      if y[0] < 0 {
        UMono(n, Sum(y[1..]) + 1, k);
      } else {
        UMono(n, Sum(y[1..]) + 1, k + 1);
      }
    } else {
      UOne(n, k);
      UOne(n, k + 1);
      assert y[1..] == [];
    }
  }

  /** Vectors of one length and sum have different numbers. */
  lemma {:induction false} IndexInjective(y: seq<int>, z: seq<int>)
    requires |y| == |z| >= 1 && Sum(y) == Sum(z) && Index(y) == Index(z)
    ensures y == z
  {
    var n, k := |y|, Sum(y);
    if n == 1 {
      assert y[1..] == [] && z[1..] == [];
    } else {
      IndexBound(y[1..]);
      IndexBound(z[1..]);
      SameSign(y, z);
      SameRest(y, z);
      IndexInjective(y[1..], z[1..]);
      assert y == [y[0]] + y[1..] && z == [z[0]] + z[1..];
    }
  }

  /** The number of a vector among those that agree on the sign of its first entry. */
  function Place(y: seq<int>): nat
    requires |y| > 1
  {
    Index(y[1..]) + U(|y|, Sum(y[1..]))
  }

  /** Does number i fall to the vectors whose rest has sum k? */
  ghost predicate Level(n: nat, k: nat, i: nat) {
    n >= 1 && U(n, k) <= i < U(n, k + 1)
  }

  lemma PlaceLevel(y: seq<int>)
    requires |y| > 1
    ensures Level(|y|, Sum(y[1..]), Place(y))
  {
    IndexBound(y[1..]);
    UStep(|y|, Sum(y[1..]));
  }

  lemma PlaceBound(y: seq<int>, n: nat, k: nat, u: nat)
    requires n == |y| > 1 && k == Sum(y) && u == U(n, k + 1)
    ensures Place(y) < u && Index(y) == Place(y) + (if y[0] < 0 then u else 0)
  {
    PlaceLevel(y);
    UMono(n, Sum(y[1..]) + 1, k + 1);
  }

  lemma SameSign(y: seq<int>, z: seq<int>)
    requires |y| == |z| > 1 && Sum(y) == Sum(z) && Index(y) == Index(z)
    ensures (y[0] < 0 <==> z[0] < 0) && Place(y) == Place(z)
  {
    PlaceBound(y, |y|, Sum(y), U(|y|, Sum(y) + 1));
    PlaceBound(z, |y|, Sum(y), U(|y|, Sum(y) + 1));
  }

  lemma SameRest(y: seq<int>, z: seq<int>)
    requires |y| == |z| > 1 && Sum(y) == Sum(z) && Place(y) == Place(z)
    requires y[0] < 0 <==> z[0] < 0
    ensures Sum(y[1..]) == Sum(z[1..]) && Index(y[1..]) == Index(z[1..]) && y[0] == z[0]
  {
    PlaceLevel(y);
    PlaceLevel(z);
    SameLevel(|y|, Sum(y[1..]), Sum(z[1..]), Place(y));
  }

  lemma SameLevel(n: nat, a: nat, b: nat, i: nat)
    requires Level(n, a, i) && Level(n, b, i)
    ensures a == b
  {
    if a < b {
      UMono(n, a + 1, b);
    } else if b < a {
      UMono(n, b + 1, a);
    }
  }

  /** Numbers a vector, from its last entry to its first. */
  method Icwrs(y: seq<int>) returns (acc: nat)
    requires |y| >= 2 && V(|y|, Sum(y)) <= WORD
    ensures acc == Index(y)
  {
    var n := |y|;
    var j := n - 1;
    acc := if y[j] < 0 then 1 else 0;
    var k := Abs(y[j]);
    assert y[j..][1..] == [];
    while true
      invariant 0 < j < n && acc == Index(y[j..]) && k == Sum(y[j..])
      decreases j
    {
      assert y[j - 1..][1..] == y[j..];
      j := j - 1;
      acc := acc + PvqU(n - j, k);
      k := k + Abs(y[j]);
      if y[j] < 0 {
        acc := acc + PvqU(n - j, k + 1);
      }
      if j <= 0 {
        break;
      }
    }
    assert y[0..] == y;
    IndexBound(y);
    acc := acc % WORD;
  }

  // ---- and back

  /** The sum of the squares, which the gain is divided by. */
  function Squares(y: seq<int>): int {
    if y == [] then 0 else Squares(y[..|y| - 1]) + Square(y[|y| - 1])
  }

  function Square(x: int): int {
    x * x
  }

  lemma SquaresNext(y: seq<int>, next: seq<int>, x: int)
    requires next == y + [x]
    ensures Squares(next) == Squares(y) + Square(x)
  {
    assert next[..|y|] == y;
  }

  /** The first entry of vector i of length n and sum k, and what number the rest
      has among those of its own sum. */
  ghost predicate Splits(n: nat, k: nat, i: nat, val: int, k': nat, i': nat) {
    && n >= 1
    && Abs(val) + k' == k
    && i == i' + U(n, k') + (if val < 0 then U(n, k + 1) else 0)
    && i' < V(n - 1, k')
  }

  /** Whatever completes what is found so far is the vector looked for. */
  ghost predicate Leads(head: seq<int>, n: nat, k: nat, i: nat, sum: nat, index: nat) {
    && n >= 1 && i < V(n, k)
    && forall z: seq<int> :: |z| == n && Sum(z) == k && Index(z) == i ==>
         Sum(head + z) == sum && Index(head + z) == index
  }

  lemma LeadsOn(head: seq<int>, n: nat, k: nat, i: nat, sum: nat, index: nat, val: int, k': nat, i': nat)
    requires n >= 2 && Leads(head, n, k, i, sum, index) && Splits(n, k, i, val, k', i')
    ensures Leads(head + [val], n - 1, k', i', sum, index)
  {
    forall z: seq<int> | |z| == n - 1 && Sum(z) == k' && Index(z) == i'
      ensures Sum(head + [val] + z) == sum && Index(head + [val] + z) == index
    {
      var w := [val] + z;
      assert w[1..] == z;
      assert head + [val] + z == head + w;
    }
  }

  /** That, and the sum of the squares so far. */
  ghost predicate Found(head: seq<int>, n: nat, k: nat, i: nat, sum: nat, index: nat, yy: int) {
    Leads(head, n, k, i, sum, index) && yy == Squares(head)
  }

  lemma FoundOn(head: seq<int>, next: seq<int>, n: nat, k: nat, i: nat, sum: nat, index: nat, yy: int,
      val: int, k': nat, i': nat)
    requires n >= 2 && Found(head, n, k, i, sum, index, yy) && Splits(n, k, i, val, k', i')
    requires next == head + [val]
    ensures Found(next, n - 1, k', i', sum, index, yy + Square(val))
  {
    LeadsOn(head, n, k, i, sum, index, val, k', i');
    SquaresNext(head, next, val);
  }

  lemma FoundAll(head: seq<int>, next: seq<int>, n: nat, k: nat, i: nat, sum: nat, index: nat, yy: int,
      val: int, last: int)
    requires n == 2 && Found(head, n, k, i, sum, index, yy) && Sum([val, last]) == k && Index([val, last]) == i
    requires next == head + [val, last]
    ensures Sum(next) == sum && Index(next) == index && yy + Square(val) + Square(last) == Squares(next)
  {
    SquaresLast(head, next, val, last);
  }

  /** One entry, for more than two left. */
  method Entry(n: nat, k0: nat, i0: nat) returns (val: int, k: nat, i: nat)
    requires n > 2 && i0 < V(n, k0) <= WORD
    ensures Splits(n, k0, i0, val, k, i)
  {
    if k0 >= n {
      val, k, i := EntryWide(n, k0, i0);
    } else {
      val, k, i := EntryNarrow(n, k0, i0);
    }
  }

  method EntryWide(n: nat, k0: nat, i0: nat) returns (val: int, k: nat, i: nat)
    requires n > 2 && k0 >= n && i0 < V(n, k0) <= WORD
    ensures Splits(n, k0, i0, val, k, i)
  {
    var p := Cell(n, k0 + 1);
    var negative := i0 >= p;
    i := if negative then (i0 - p) % WORD else i0;
    UMono(n, k0, k0 + 1);
    k, i := Below(n, k0, i);
    val := if negative then -(k0 - k) else k0 - k;
    SplitsAt(n, k0, i0, val, k, i, negative);
  }

  method EntryNarrow(n: nat, k0: nat, i0: nat) returns (val: int, k: nat, i: nat)
    requires n > 2 && k0 < n && i0 < V(n, k0) <= WORD
    ensures Splits(n, k0, i0, val, k, i)
  {
    USymmetric(k0, n);
    USymmetric(k0 + 1, n);
    var p := Cell(k0, n);
    var q := Cell(k0 + 1, n);
    if p <= i0 < q {
      i := (i0 - p) % WORD;
      k, val := k0, 0;
      SplitsAt(n, k0, i0, val, k, i, false);
    } else {
      var negative := i0 >= q;
      i := if negative then (i0 - q) % WORD else i0;
      k, i := Fewer(n, k0, i);
      val := if negative then -(k0 - k) else k0 - k;
      SplitsAt(n, k0, i0, val, k, i, negative);
    }
  }

  lemma SplitsAt(n: nat, k0: nat, i0: nat, val: int, k: nat, i: nat, negative: bool)
    requires n >= 1 && k <= k0 && val == (if negative then -(k0 - k) else k0 - k)
    requires negative <==> i0 >= U(n, k0 + 1)
    requires i0 < V(n, k0)
    requires i + U(n, k) == (if negative then i0 - U(n, k0 + 1) else i0) < U(n, k + 1)
    ensures Splits(n, k0, i0, val, k, i)
  {
    UStep(n, k);
  }

  /** The sum of the rest, found along a row of the table or, when it is below
      the length, down a column. */
  method Below(n: nat, k0: nat, i0: nat) returns (k: nat, i: nat)
    requires n > 2 && k0 >= n && i0 < U(n, k0 + 1) <= WORD
    ensures k <= k0 && i + U(n, k) == i0 < U(n, k + 1)
  {
    k := k0;
    var p: nat;
    var q := Cell(n, n);
    if q > i0 {
      k, p := Down(n, n, i0);
    } else {
      p := Cell(n, k);
      while p > i0
        invariant n <= k <= k0 && p == U(n, k) && i0 < U(n, k + 1)
        decreases k
      {
        k := k - 1;
        p := Cell(n, k);
      }
    }
    i := (i0 - p) % WORD;
  }

  /** The largest sum below k0 whose vectors start at or before number i. */
  method Down(n: nat, k0: nat, i: nat) returns (k: nat, p: nat)
    requires 0 < k0 <= n && i < U(n, k0)
    ensures k < k0 && p == U(n, k) <= i < U(n, k + 1)
  {
    k := k0;
    while true
      invariant 0 < k <= k0 && i < U(n, k)
      decreases k
    {
      k := k - 1;
      USymmetric(k, n);
      p := Cell(k, n);
      if p <= i {
        break;
      }
    }
  }

  method Fewer(n: nat, k0: nat, i0: nat) returns (k: nat, i: nat)
    requires n > 2 && k0 < n && i0 < U(n, k0) <= WORD
    ensures k < k0 && i + U(n, k) == i0 < U(n, k + 1)
  {
    var p;
    k, p := Down(n, k0, i0);
    i := (i0 - p) % WORD;
  }

  lemma VSmaller(n: nat, k: nat, k': nat)
    requires n >= 1 && k' <= k
    ensures V(n - 1, k') <= V(n, k)
  {
    UStep(n, k');
    UMono(n, k' + 1, k + 1);
  }

  /** The vector of length n and sum k that has number idx, written into y. */
  method Cwrsi(n0: nat, k0: nat, idx: nat, y: array<int>) returns (yy: int)
    requires 2 <= n0 == y.Length && V(n0, k0) < WORD && idx < V(n0, k0)
    modifies y
    ensures Sum(y[..]) == k0 && Index(y[..]) == idx && yy == Squares(y[..])
  {
    yy := 0;
    var n, k, pos := n0, k0, 0;
    var i: nat := idx % WORD;
    assert forall z: seq<int> :: y[..0] + z == z;
    while n > 2
      invariant 2 <= n && pos + n == n0
      invariant V(n, k) < WORD && Found(y[..pos], n, k, i, k0, idx, yy)
    {
      ghost var head := y[..pos];
      var val, k', i' := Entry(n, k, i);
      VSmaller(n, k, k');
      y[pos] := val;
      assert y[..pos + 1] == head + [val];
      FoundOn(head, y[..pos + 1], n, k, i, k0, idx, yy, val, k', i');
      yy := yy + Square(val);
      k, i := k', i';
      pos := pos + 1;
      n := n - 1;
    }
    ghost var head := y[..pos];
    var val, last := LastTwo(n, k, i);
    y[pos], y[pos + 1] := val, last;
    assert y[..] == head + [val, last];
    FoundAll(head, y[..], n, k, i, k0, idx, yy, val, last);
    yy := yy + Square(val) + Square(last);
  }

  method LastTwo(n: nat, k0: nat, i0: nat) returns (val: int, last: int)
    requires n == 2 && i0 < V(n, k0) < WORD
    ensures Sum([val, last]) == k0 && Index([val, last]) == i0
  {
    UTwo(n, k0);
    UTwo(n, k0 + 1);
    val, last := Pair(k0, i0);
    UTwo(n, Abs(last));
    TwoIndex(n, val, last);
  }

  method Pair(k0: nat, i0: nat) returns (val: int, last: int)
    requires i0 < (if k0 == 0 then 1 else 4 * k0) < WORD
    ensures Abs(val) + Abs(last) == k0
    ensures i0 == (if last < 0 then 1 else 0) + (if last == 0 then 0 else 2 * Abs(last) - 1)
               + (if val < 0 then 2 * k0 + 1 else 0)
  {
    var p := 2 * k0 + 1;
    var negative := i0 >= p;
    var i: int := if negative then (i0 - p) % WORD else i0;
    var k := (i + 1) % WORD / 2;
    if k != 0 {
      i := (i - (2 * k - 1)) % WORD;
    }
    val := if negative then -(k0 - k) else k0 - k;
    last := if i == 1 then -k else k;
  }

  lemma TwoIndex(n: nat, a: int, b: int)
    requires n == 2
    ensures Sum([a, b]) == Abs(a) + Abs(b)
    ensures Index([a, b]) == (if b < 0 then 1 else 0) + U(n, Abs(b)) + (if a < 0 then U(n, Abs(a) + Abs(b) + 1) else 0)
  {
    assert [a, b][1..] == [b] && [b][1..] == [];
    assert Sum([b]) == Abs(b);
  }

  lemma SquaresLast(y: seq<int>, next: seq<int>, val: int, last: int)
    requires next == y + [val, last]
    ensures Squares(next) == Squares(y) + Square(val) + Square(last)
  {
    SquaresNext(y, next[..|y| + 1], val);
    SquaresNext(next[..|y| + 1], next, last);
  }

  // ---- as a symbol of the range coder

  lemma {:induction false} UPositive(n: nat, k: nat)
    requires n >= 1 && k >= 1
    ensures U(n, k) >= 1
    decreases n + k
  {
    if k > 1 {
      UPositive(n, k - 1);
    } else if n > 1 {
      UPositive(n - 1, k);
    }
  }

  /** The coder after a vector: its number, out of all there are. */
  function Stepped(c: Coder, y: seq<int>): Coder
    requires Ok(c) && |y| >= 2 && Sum(y) >= 1 && V(|y|, Sum(y)) < WORD
  {
    UPositive(|y|, Sum(y));
    UPositive(|y|, Sum(y) + 1);
    IndexBound(y);
    UintStep(c, V(|y|, Sum(y)), Index(y))
  }

  lemma SteppedIs(c: Coder, y: seq<int>, v: nat, i: nat)
    requires Ok(c) && |y| >= 2 && Sum(y) >= 1 && v == V(|y|, Sum(y)) && i == Index(y)
    requires 2 <= v < WORD && i < v
    ensures Stepped(c, y) == UintStep(c, v, i)
  {
  }

  /** The number of vectors, which a 32-bit word holds. */
  method Count(n: nat, k: nat) returns (v: nat)
    requires n >= 1 && k >= 1 && V(n, k) < WORD
    ensures 2 <= v == V(n, k)
  {
    UPositive(n, k);
    UPositive(n, k + 1);
    v := (PvqU(n, k) + PvqU(n, k + 1)) % WORD;
  }

  method EncodePulses(w: Enc, y: seq<int>)
    requires w.Valid() && |y| >= 2 && Sum(y) >= 1 && V(|y|, Sum(y)) < WORD
    modifies w, w.buf
    ensures w.Valid() && w.coder == Stepped(old(w.coder), y)
    ensures w.error == 0 ==> old(w.error) == 0
  {
    var i := Icwrs(y);
    var ft := Count(|y|, Sum(y));
    IndexBound(y);
    SteppedIs(w.coder, y, ft, i);
    w.Uint(i, ft);
  }

  /** On a packet that meets what some vector says, that vector is decoded. */
  method DecodePulses(r: EcDec, y: array<int>, k: nat, ghost x: seq<int>) returns (yy: int)
    requires r.Valid() && 2 <= y.Length == |x| && Sum(x) == k >= 1 && V(|x|, k) < WORD
    requires Fits(r.buf, Stepped(r.coder, x))
    modifies r, y
    ensures r.Valid() && r.error == old(r.error)
    ensures y[..] == x && yy == Squares(x) && r.coder == Stepped(old(r.coder), x)
  {
    var v := Count(y.Length, k);
    IndexBound(x);
    SteppedIs(r.coder, x, v, Index(x));
    var i := OpusRoundTrip.GetUint(r, v, Index(x));
    yy := Cwrsi(y.Length, k, i, y);
    IndexInjective(y[..], x);
  }
}
