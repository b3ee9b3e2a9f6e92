// What the shared parts of the AV1 syntax are, apart from being shared: the
// transform is half a Walsh sum, contexts count what the standard counts, and a size
// is the number its bytes weigh.

module Av1Laws {
  import opened Av1Transform
  import opened Bits
  import S = Av1Syntax
  import B = Av1Bits

  // ---- the transform

  /** The signs of the Walsh functions of four, by their number of sign changes. */
  function Sign(k: nat, i: nat): int
    requires k < 4 && i < 4
  {
    [[1, 1, 1, 1], [1, 1, -1, -1], [1, -1, -1, 1], [1, -1, 1, -1]][k][i]
  }

  function Entry(x: Four, k: nat): int
    requires k < 4
  {
    if k == 0 then x.a else if k == 1 then x.b else if k == 2 then x.c else x.d
  }

  function WalshSum(x: Four, k: nat): int
    requires k < 4
  {
    Sign(k, 0) * x.a + Sign(k, 1) * x.b + Sign(k, 2) * x.c + Sign(k, 3) * x.d
  }

  /** One pass gives half the Walsh sums, to within a half. */
  lemma PassIsWalsh(x: Four, k: nat)
    requires k < 4
    ensures -1 <= 2 * Entry(Forward(x), k) - WalshSum(x, k) <= 1
  {
    HalfIs(x.a + x.b - (x.d - x.c));
  }

  /** The Walsh sum of a block in both directions. */
  function BlockSum(raster: seq<int>, row: nat, col: nat): int
    requires |raster| == 16 && row < 4 && col < 4
  {
    WalshSum(Four(WalshSum(Column(raster, 0), row), WalshSum(Column(raster, 1), row),
                  WalshSum(Column(raster, 2), row), WalshSum(Column(raster, 3), row)), col)
  }

  /** Both passes give a quarter of it, to within one and a half, at the place of the
      transposed result. */
  lemma TransformIsWalsh(raster: seq<int>, row: nat, col: nat)
    requires |raster| == 16 && row < 4 && col < 4
    ensures -6 <= 4 * Walsh(raster)[row + 4 * col] - BlockSum(raster, row, col) <= 6
  {
    var p, q, r, t := Forward(Column(raster, 0)), Forward(Column(raster, 1)), Forward(Column(raster, 2)), Forward(Column(raster, 3));
    PassIsWalsh(Column(raster, 0), row);
    PassIsWalsh(Column(raster, 1), row);
    PassIsWalsh(Column(raster, 2), row);
    PassIsWalsh(Column(raster, 3), row);
    var inner := Four(Entry(p, row), Entry(q, row), Entry(r, row), Entry(t, row));
    PassIsWalsh(inner, col);
    assert Column(Mid(raster), row) == inner;
    Place(raster, row, col);
    Close(inner, Four(WalshSum(Column(raster, 0), row), WalshSum(Column(raster, 1), row),
                      WalshSum(Column(raster, 2), row), WalshSum(Column(raster, 3), row)), col);
  }

  lemma Place(raster: seq<int>, row: nat, col: nat)
    requires |raster| == 16 && row < 4 && col < 4
    ensures Walsh(raster)[row + 4 * col] == Entry(Forward(Column(Mid(raster), row)), col)
  {
  }

  lemma Close(x: Four, y: Four, k: nat)
    requires k < 4 && -1 <= 2 * x.a - y.a <= 1 && -1 <= 2 * x.b - y.b <= 1
    requires -1 <= 2 * x.c - y.c <= 1 && -1 <= 2 * x.d - y.d <= 1
    ensures -4 <= 2 * WalshSum(x, k) - WalshSum(y, k) <= 4
  {
  }

  // ---- contexts

  /** A token of at most three. */
  function Three(s: nat): nat {
    if s < 3 then s else 3
  }

  predicate Token(s: nat) {
    s <= 15
  }

  lemma StoredIs(s: nat)
    ensures S.Stored(s) == 64 * Three(s) + s
  {
  }

  /** The step of a base context is half the sum of the five neighbours, none counted
      above three, rounded up and at most 4. */
  lemma LoStep(a: nat, b: nat, c: nat, d: nat, e: nat)
    requires Token(a) && Token(b) && Token(c) && Token(d) && Token(e)
    ensures var mag := S.Stored(a) + S.Stored(b) + S.Stored(c) + S.Stored(d) + S.Stored(e);
      var sum := Three(a) + Three(b) + Three(c) + Three(d) + Three(e);
      (if mag > 512 then 4 else (mag + 64) / 128) == if (sum + 1) / 2 < 4 then (sum + 1) / 2 else 4
  {
    StoredIs(a);
    StoredIs(b);
    StoredIs(c);
    StoredIs(d);
    StoredIs(e);
    var sum, low := Three(a) + Three(b) + Three(c) + Three(d) + Three(e), a + b + c + d + e;
    assert sum <= 7 ==> low <= sum + 24;
  }

  /** So a base context is the one of the place, and that many above it. */
  lemma LoCtxIs(t: S.Tables, levels: seq<nat>, rc: nat, a: nat, b: nat, c: nat, d: nat, e: nat)
    requires |levels| == 24 && rc < 16 && Token(a) && Token(b) && Token(c) && Token(d) && Token(e)
    requires levels[rc + 1] == S.Stored(a) && levels[rc + 4] == S.Stored(b) && levels[rc + 5] == S.Stored(c)
    requires levels[rc + 2] == S.Stored(d) && levels[rc + 8] == S.Stored(e)
    ensures var sum := Three(a) + Three(b) + Three(c) + Three(d) + Three(e);
      S.LoCtx(t, levels, rc) == t.loCtx[rc % 4][rc / 4] + (if (sum + 1) / 2 < 4 then (sum + 1) / 2 else 4)
  {
    LoStep(a, b, c, d, e);
  }

  /** The step of a range context is half the sum of the three neighbours, rounded up
      and at most 6. */
  lemma HiStepIs(a: nat, b: nat, c: nat)
    requires Token(a) && Token(b) && Token(c)
    ensures S.HiStep(S.Stored(a) + S.Stored(b) + S.Stored(c)) == if (a + b + c + 1) / 2 < 6 then (a + b + c + 1) / 2 else 6
  {
    StoredIs(a);
    StoredIs(b);
    StoredIs(c);
    var sum := Three(a) + Three(b) + Three(c);
    assert (64 * sum + (a + b + c)) % 64 == a + b + c;
  }

  function SignOf(x: int): int {
    if x < 0 then -1 else if x > 0 then 1 else 0
  }

  /** The context of a sign is the balance of the neighbours' signs. */
  lemma SignCtxIs(x: int, m: nat, y: int, n: nat)
    ensures var balance := SignOf(x) + SignOf(y);
      S.SignCtx(S.Level(x, m), S.Level(y, n)) == if balance == 0 then 0 else if balance < 0 then 1 else 2
  {
  }

  /** The context of a skip sees the neighbours' magnitudes, none counted above four. */
  lemma SkipCtxIs(t: S.Tables, x: int, m: nat, y: int, n: nat)
    ensures S.SkipCtx(t, 0, S.Level(x, m), S.Level(y, n)) == t.skipCtx[if m < 4 then m else 4][if n < 4 then n else 4]
  {
  }

  // ---- what a block leaves to its neighbours

  /** The magnitudes of the first p values of a block by rows, those left out that
      come before position i of the scan. */
  function Magnitudes(t: S.Tables, v: S.Block, i: nat, p: nat): nat
    requires p <= 16
  {
    if p == 0 then 0 else Magnitudes(t, v, i, p - 1) + (if t.place[p - 1] >= i then S.Abs(v[p - 1]) else 0)
  }

  lemma {:induction false} OneMore(t: S.Tables, v: S.Block, i: nat, p: nat)
    requires i < 16 && p <= 16
    ensures Magnitudes(t, v, i, p) == Magnitudes(t, v, i + 1, p) + (if t.scan[i] < p then S.Abs(v[t.scan[i]]) else 0)
  {
    if p > 0 {
      OneMore(t, v, i, p - 1);
      assert t.scan[t.place[p - 1]] == p - 1;
    }
  }

  lemma {:induction false} NoneLeft(t: S.Tables, v: S.Block, i: nat, p: nat)
    requires p <= 16 && forall m :: i <= m < 16 ==> v[t.scan[m]] == 0
    ensures Magnitudes(t, v, i, p) == 0
  {
    if p > 0 {
      NoneLeft(t, v, i, p - 1);
      assert t.scan[t.place[p - 1]] == p - 1;
    }
  }

  lemma {:induction false} CulFrom(t: S.Tables, v: S.Block, i: nat, eob: nat)
    requires i <= 16 && eob < 16 && forall m :: eob < m < 16 ==> v[t.scan[m]] == 0
    ensures S.Cul(t, v, i, eob) == Magnitudes(t, v, i, 16)
    decreases 16 - i
  {
    if i > eob {
      NoneLeft(t, v, i, 16);
    } else {
      CulFrom(t, v, i + 1, eob);
      OneMore(t, v, i, 16);
    }
  }

  function Total(v: S.Block, p: nat): nat
    requires p <= 16
  {
    if p == 0 then 0 else Total(v, p - 1) + S.Abs(v[p - 1])
  }

  lemma {:induction false} AllCounted(t: S.Tables, v: S.Block, p: nat)
    requires p <= 16
    ensures Magnitudes(t, v, 0, p) == Total(v, p)
  {
    if p > 0 {
      AllCounted(t, v, p - 1);
    }
  }

  /** The sum of all its magnitudes, 63 at most, and the sign of its first value: a
      block without values counts as one of zeros, whatever the order of the scan. */
  lemma LeavesTotal(t: S.Tables, v: S.Block)
    ensures S.Left(t, v) == (if Total(v, 16) < 63 then Total(v, 16) else 63) + 64 * (1 + SignOf(v[0]))
  {
    var eob := S.Eob(t, v, |t.scan|);
    AllCounted(t, v, 16);
    if eob < 0 {
      NoneLeft(t, v, 0, 16);
    } else {
      CulFrom(t, v, 1, eob);
      OneMore(t, v, 0, 16);
    }
  }

  // ---- sizes

  /** Seven bits of every byte, the first ones lowest. */
  function LebWeight(s: seq<Byte>): nat {
    if s == [] then 0 else s[0] % 128 + 128 * LebWeight(s[1..])
  }

  /** The bytes of a size weigh up to it, and all of them but the last say that more follow. */
  lemma {:induction false} LebIs(n: nat)
    ensures LebWeight(B.Leb(n)) == n
    ensures forall i :: 0 <= i < |B.Leb(n)| ==> (B.Leb(n)[i] >= 128 <==> i < |B.Leb(n)| - 1)
  {
    if n >= 128 {
      LebIs(n / 128);
      var s := B.Leb(n);
      assert s[1..] == B.Leb(n / 128) && s[0] == n % 128 + 128;
    } else {
      assert B.Leb(n)[1..] == [];
    }
  }
}
