// A lossless still of 16x16 pixels, 4:2:0: three planes of 4x4 blocks, each
// predicted from pixels already coded, transformed, and coded. Decoding the
// tile gives the frame back.

module Av1Still {
  import opened Bits
  import opened MsacModel
  import opened Av1Channel
  import opened Av1Syntax
  import T = Av1Transform
  import E = Av1BlockEnc
  import D = Av1BlockDec

  // ---- planes of n by n pixels, n being 16 or 8, stored by rows

  function Pos(n: nat, row: nat, col: nat): nat {
    if n == 16 then 16 * row + col else 8 * row + col
  }

  /** How many blocks lie side by side. */
  function Blocks(n: nat): nat {
    if n == 16 then 4 else 2
  }

  predicate Size(n: nat) {
    n == 8 || n == 16
  }

  predicate Plane(s: seq<int>, n: nat) {
    Size(n) && |s| == Pos(n, n, 0) && forall i :: 0 <= i < |s| ==> 0 <= s[i] < 256
  }

  predicate BlockAt(n: nat, x: nat, y: nat) {
    Size(n) && x + 4 <= n && y + 4 <= n
  }

  // ---- prediction by the mean of the neighbours

  function Above(s: seq<int>, n: nat, x: nat, y: nat, k: nat): int
    requires BlockAt(n, x, y) && y > 0 && |s| == Pos(n, n, 0) && k <= 4
  {
    if k == 0 then 0 else Above(s, n, x, y, k - 1) + s[Pos(n, y - 1, x + k - 1)]
  }

  function Beside(s: seq<int>, n: nat, x: nat, y: nat, k: nat): int
    requires BlockAt(n, x, y) && x > 0 && |s| == Pos(n, n, 0) && k <= 4
  {
    if k == 0 then 0 else Beside(s, n, x, y, k - 1) + s[Pos(n, y + k - 1, x - 1)]
  }

  function DcPred(s: seq<int>, n: nat, x: nat, y: nat): int
    requires BlockAt(n, x, y) && |s| == Pos(n, n, 0)
  {
    if x == 0 && y == 0 then 128
    else if y == 0 then (2 + Beside(s, n, x, y, 4)) / 4
    else if x == 0 then (2 + Above(s, n, x, y, 4)) / 4
    else (4 + Above(s, n, x, y, 4) + Beside(s, n, x, y, 4)) / 8
  }

  lemma {:induction false} AboveBound(s: seq<int>, n: nat, x: nat, y: nat, k: nat)
    requires Plane(s, n) && BlockAt(n, x, y) && y > 0 && k <= 4
    ensures 0 <= Above(s, n, x, y, k) <= 255 * k
  {
    if k > 0 {
      AboveBound(s, n, x, y, k - 1);
    }
  }

  lemma {:induction false} BesideBound(s: seq<int>, n: nat, x: nat, y: nat, k: nat)
    requires Plane(s, n) && BlockAt(n, x, y) && x > 0 && k <= 4
    ensures 0 <= Beside(s, n, x, y, k) <= 255 * k
  {
    if k > 0 {
      BesideBound(s, n, x, y, k - 1);
    }
  }

  lemma DcBound(s: seq<int>, n: nat, x: nat, y: nat)
    requires Plane(s, n) && BlockAt(n, x, y)
    ensures 0 <= DcPred(s, n, x, y) < 256
  {
    if y > 0 {
      AboveBound(s, n, x, y, 4);
    }
    if x > 0 {
      BesideBound(s, n, x, y, 4);
    }
  }

  /** The pixels of the blocks before block (cx, cy), in coding order. */
  ghost predicate Known(rec: seq<int>, src: seq<int>, n: nat, cx: nat, cy: nat) {
    && Size(n) && |rec| == |src| == Pos(n, n, 0)
    && forall row, col :: 0 <= row < n && 0 <= col < n && (row < 4 * cy || (row < 4 * cy + 4 && col < 4 * cx)) ==>
         rec[Pos(n, row, col)] == src[Pos(n, row, col)]
  }

  lemma {:induction false} SameAbove(rec: seq<int>, src: seq<int>, n: nat, cx: nat, cy: nat, k: nat)
    requires Known(rec, src, n, cx, cy) && BlockAt(n, 4 * cx, 4 * cy) && cy > 0 && k <= 4
    ensures Above(rec, n, 4 * cx, 4 * cy, k) == Above(src, n, 4 * cx, 4 * cy, k)
  {
    if k > 0 {
      SameAbove(rec, src, n, cx, cy, k - 1);
    }
  }

  lemma {:induction false} SameBeside(rec: seq<int>, src: seq<int>, n: nat, cx: nat, cy: nat, k: nat)
    requires Known(rec, src, n, cx, cy) && BlockAt(n, 4 * cx, 4 * cy) && cx > 0 && k <= 4
    ensures Beside(rec, n, 4 * cx, 4 * cy, k) == Beside(src, n, 4 * cx, 4 * cy, k)
  {
    if k > 0 {
      SameBeside(rec, src, n, cx, cy, k - 1);
    }
  }

  /** Prediction looks only at what is known. */
  lemma SamePred(rec: seq<int>, src: seq<int>, n: nat, cx: nat, cy: nat)
    requires Known(rec, src, n, cx, cy) && BlockAt(n, 4 * cx, 4 * cy)
    ensures DcPred(rec, n, 4 * cx, 4 * cy) == DcPred(src, n, 4 * cx, 4 * cy)
  {
    if cy > 0 {
      SameAbove(rec, src, n, cx, cy, 4);
    }
    if cx > 0 {
      SameBeside(rec, src, n, cx, cy, 4);
    }
  }

  /** The encoder's prediction, read off its own reconstruction. */
  method Predict(dst: array<int>, n: nat, x: nat, y: nat) returns (val: int)
    requires BlockAt(n, x, y) && dst.Length == Pos(n, n, 0)
    ensures val == DcPred(dst[..], n, x, y)
  {
    if x == 0 && y == 0 {
      return 128;
    }
    if y == 0 {
      var s := 2;
      for i := 0 to 4
        invariant s == 2 + Beside(dst[..], n, x, y, i)
      {
        s := s + dst[Pos(n, y + i, x - 1)];
      }
      return s / 4;
    }
    if x == 0 {
      var s := 2;
      for i := 0 to 4
        invariant s == 2 + Above(dst[..], n, x, y, i)
      {
        s := s + dst[Pos(n, y - 1, x + i)];
      }
      return s / 4;
    }
    var s := 4;
    for i := 0 to 4
      invariant s == 4 + Above(dst[..], n, x, y, i) + Beside(dst[..], n, x, y, i)
    {
      s := s + dst[Pos(n, y - 1, x + i)];
      s := s + dst[Pos(n, y + i, x - 1)];
    }
    return s / 8;
  }

  // ---- one block of a plane

  /** The pixels of a block less their prediction, by rows. */
  function Residual(src: seq<int>, n: nat, x: nat, y: nat, pred: int): (r: seq<int>)
    requires BlockAt(n, x, y) && |src| == Pos(n, n, 0)
    ensures |r| == 16
  {
    seq(16, k requires 0 <= k < 16 => src[Pos(n, y + k / 4, x + k % 4)] - pred)
  }

  /** The values that are coded for a block. */
  function Coded(src: seq<int>, n: nat, x: nat, y: nat): Block
    requires BlockAt(n, x, y) && |src| == Pos(n, n, 0)
  {
    T.Walsh(Residual(src, n, x, y, DcPred(src, n, x, y)))
  }

  lemma CodedBound(src: seq<int>, n: nat, x: nat, y: nat)
    requires Plane(src, n) && BlockAt(n, x, y)
    ensures forall k :: 0 <= k < 16 ==> Abs(Coded(src, n, x, y)[k]) <= 8191
  {
    var pred := DcPred(src, n, x, y);
    var r := Residual(src, n, x, y, pred);
    DcBound(src, n, x, y);
    forall k | 0 <= k < 16
      ensures T.Near(r[k], 255)
    {
      assert 0 <= src[Pos(n, y + k / 4, x + k % 4)] < 256;
    }
    T.WalshBound(r);
    forall k | 0 <= k < 16
      ensures Abs(T.Walsh(r)[k]) <= 8191
    {
      assert T.Near(T.Walsh(r)[k], 6375);
    }
  }

  // ---- the calls for a plane and for a frame

  /** The contexts along one edge of a plane. */
  type Row = s: seq<nat> | |s| == 64 witness seq(64, _ => 64)

  function With(row: Row, i: nat, x: nat): Row
    requires i < 64
  {
    row[i := x]
  }

  /** The calls for the blocks of a plane from (cx, cy) on. */
  function PlaneOps(t: Tables, plane: nat, src: seq<int>, n: nat, cx: nat, cy: nat, above: Row, left: Row): seq<Op>
    requires Size(n) && |src| == Pos(n, n, 0) && cx <= Blocks(n)
    decreases Blocks(n) - cy, Blocks(n) - cx
  {
    if cy >= Blocks(n) then []
    else if cx == Blocks(n) then PlaneOps(t, plane, src, n, 0, cy + 1, above, left)
    else
      var v := Coded(src, n, 4 * cx, 4 * cy);
      BlockOps(t, plane, v, above[cx], left[cy])
      + PlaneOps(t, plane, src, n, cx + 1, cy, With(above, cx, Left(t, v)), With(left, cy, Left(t, v)))
  }

  /** The contexts after a plane. */
  function PlaneCtx(t: Tables, src: seq<int>, n: nat, cx: nat, cy: nat, above: Row, left: Row): (Row, Row)
    requires Size(n) && |src| == Pos(n, n, 0) && cx <= Blocks(n)
    decreases Blocks(n) - cy, Blocks(n) - cx
  {
    if cy >= Blocks(n) then (above, left)
    else if cx == Blocks(n) then PlaneCtx(t, src, n, 0, cy + 1, above, left)
    else
      var v := Coded(src, n, 4 * cx, 4 * cy);
      PlaneCtx(t, src, n, cx + 1, cy, With(above, cx, Left(t, v)), With(left, cy, Left(t, v)))
  }

  // ---- the encoder

  /** Codes the block at (4 cx, 4 cy) and takes it into the reconstruction. */
  method EncodeOne(t: Tables, w: Writer, src: seq<int>, rec: array<int>, n: nat, above: Row, left: Row, plane: nat,
                   cx: nat, cy: nat)
    returns (level: nat)
    requires w.Valid() && E.Sized(w.cdfs) && Plane(src, n) && BlockAt(n, 4 * cx, 4 * cy)
    requires Known(rec[..], src, n, cx, cy)
    modifies w, w.ms, w.cdfs, rec
    ensures w.Valid() && Known(rec[..], src, n, cx + 1, cy)
    ensures level == Left(t, Coded(src, n, 4 * cx, 4 * cy))
    ensures w.log == old(w.log) + BlockOps(t, plane, Coded(src, n, 4 * cx, 4 * cy), above[cx], left[cy])
  {
    var v := ValuesOf(src, rec, n, cx, cy);
    level := E.EncodeValues(t, w, plane, v, above[cx], left[cy]);
    PutBlock(rec, n, cx, cy, Pixels(src, n, 4 * cx, 4 * cy), src);
  }

  /** The values of a block, predicted from the reconstruction. */
  method ValuesOf(src: seq<int>, rec: array<int>, n: nat, cx: nat, cy: nat) returns (v: Block)
    requires Plane(src, n) && BlockAt(n, 4 * cx, 4 * cy) && Known(rec[..], src, n, cx, cy)
    ensures v == Coded(src, n, 4 * cx, 4 * cy)
  {
    var pred := Predict(rec, n, 4 * cx, 4 * cy);
    SamePred(rec[..], src, n, cx, cy);
    var residual := Residual(src, n, 4 * cx, 4 * cy, pred);
    var small := T.Fwht(residual);
    v := E.Scaled(small);
    Quarter(small, T.Walsh(residual));
  }

  lemma Quarter(small: Block, v: Block)
    requires forall k :: 0 <= k < 16 ==> small[k] == 4 * v[k]
    ensures E.Scaled(small) == v
  {
  }

  /** The pixels of a block, by rows. */
  function Pixels(src: seq<int>, n: nat, x: nat, y: nat): (r: seq<int>)
    requires BlockAt(n, x, y) && |src| == Pos(n, n, 0)
    ensures |r| == 16
  {
    seq(16, k requires 0 <= k < 16 => src[Pos(n, y + k / 4, x + k % 4)])
  }

  /** Stores a block: with the right pixels, one block more is known. */
  method PutBlock(dst: array<int>, n: nat, cx: nat, cy: nat, block: seq<int>, ghost src: seq<int>)
    requires Size(n) && BlockAt(n, 4 * cx, 4 * cy) && |block| == 16 && Known(dst[..], src, n, cx, cy)
    requires block == Pixels(src, n, 4 * cx, 4 * cy)
    modifies dst
    ensures Known(dst[..], src, n, cx + 1, cy)
  {
    for row := 0 to 4
      invariant KnownRows(dst[..], src, n, cx, cy, row)
    {
      PutRow(dst, n, cx, cy, row, block, src);
    }
  }

  /** Is a pixel in the blocks before (cx, cy), or in the first rows of that one? */
  predicate Before(cx: nat, cy: nat, rows: nat, row: nat, col: nat) {
    row < 4 * cy || (row < 4 * cy + 4 && col < 4 * cx) || (row < 4 * cy + rows && col < 4 * cx + 4)
  }

  ghost predicate KnownRows(rec: seq<int>, src: seq<int>, n: nat, cx: nat, cy: nat, rows: nat) {
    && Size(n) && |rec| == |src| == Pos(n, n, 0)
    && forall row, col :: 0 <= row < n && 0 <= col < n && Before(cx, cy, rows, row, col) ==>
         rec[Pos(n, row, col)] == src[Pos(n, row, col)]
  }

  method PutRow(dst: array<int>, n: nat, cx: nat, cy: nat, row: nat, block: seq<int>, ghost src: seq<int>)
    requires row < 4 && BlockAt(n, 4 * cx, 4 * cy) && |block| == 16 && KnownRows(dst[..], src, n, cx, cy, row)
    requires block == Pixels(src, n, 4 * cx, 4 * cy)
    modifies dst
    ensures KnownRows(dst[..], src, n, cx, cy, row + 1)
  {
    ghost var was := dst[..];
    ghost var base := Pos(n, 4 * cy + row, 4 * cx);
    for col := 0 to 4
      invariant forall p :: base <= p < base + col ==> dst[p] == src[p]
      invariant forall p :: 0 <= p < base || base + col <= p < dst.Length ==> dst[p] == was[p]
    {
      PixelAt(src, n, 4 * cx, 4 * cy, row, col);
      dst[Pos(n, 4 * cy + row, 4 * cx + col)] := block[row * 4 + col];
    }
    RowDone(was, dst[..], src, n, cx, cy, row);
  }

  lemma PixelAt(src: seq<int>, n: nat, x: nat, y: nat, row: nat, col: nat)
    requires BlockAt(n, x, y) && |src| == Pos(n, n, 0) && row < 4 && col < 4
    ensures Pixels(src, n, x, y)[row * 4 + col] == src[Pos(n, y + row, x + col)]
    ensures Pos(n, y + row, x + col) == Pos(n, y + row, x) + col
  {
    assert (row * 4 + col) / 4 == row && (row * 4 + col) % 4 == col;
  }

  lemma RowDone(was: seq<int>, now: seq<int>, src: seq<int>, n: nat, cx: nat, cy: nat, rows: nat)
    requires rows < 4 && BlockAt(n, 4 * cx, 4 * cy) && KnownRows(was, src, n, cx, cy, rows) && |now| == |was|
    requires var base := Pos(n, 4 * cy + rows, 4 * cx);
      && (forall p :: base <= p < base + 4 ==> now[p] == src[p])
      && (forall p :: 0 <= p < base || base + 4 <= p < |was| ==> now[p] == was[p])
    ensures KnownRows(now, src, n, cx, cy, rows + 1)
  {
  }

  method EncodePlane(t: Tables, w: Writer, src: seq<int>, rec: array<int>, n: nat, above0: Row, left0: Row, plane: nat)
    returns (above: Row, left: Row)
    requires w.Valid() && E.Sized(w.cdfs) && Plane(src, n) && rec.Length == Pos(n, n, 0)
    modifies w, w.ms, w.cdfs, rec
    ensures w.Valid() && rec[..] == src
    ensures (above, left) == PlaneCtx(t, src, n, 0, 0, above0, left0)
    ensures w.log == old(w.log) + PlaneOps(t, plane, src, n, 0, 0, above0, left0)
  {
    ghost var all := PlaneOps(t, plane, src, n, 0, 0, above0, left0);
    ghost var goal, ctx := w.log + all, PlaneCtx(t, src, n, 0, 0, above0, left0);
    above, left := EncodeRows(t, w, src, rec, n, above0, left0, plane, goal, ctx);
    PlaneEnds(t, plane, src, n, Blocks(n), above, left);
    AllKnown(rec[..], src, n);
    assert w.log + [] == w.log;
  }

  method EncodeRows(t: Tables, w: Writer, src: seq<int>, rec: array<int>, n: nat, above0: Row, left0: Row, plane: nat,
                    ghost goal: seq<Op>, ghost ctx: (Row, Row))
    returns (above: Row, left: Row)
    requires w.Valid() && E.Sized(w.cdfs) && Plane(src, n) && rec.Length == Pos(n, n, 0)
    requires w.log + PlaneOps(t, plane, src, n, 0, 0, above0, left0) == goal
    requires PlaneCtx(t, src, n, 0, 0, above0, left0) == ctx
    modifies w, w.ms, w.cdfs, rec
    ensures w.Valid() && Known(rec[..], src, n, 0, Blocks(n))
    ensures w.log + PlaneOps(t, plane, src, n, 0, Blocks(n), above, left) == goal
    ensures PlaneCtx(t, src, n, 0, Blocks(n), above, left) == ctx
  {
    above, left := above0, left0;
    for cy := 0 to Blocks(n)
      invariant w.Valid() && Known(rec[..], src, n, 0, cy)
      invariant w.log + PlaneOps(t, plane, src, n, 0, cy, above, left) == goal
      invariant PlaneCtx(t, src, n, 0, cy, above, left) == ctx
    {
      above, left := EncodeRow(t, w, src, rec, n, above, left, plane, cy, goal, ctx);
    }
  }

  lemma PlaneEnds(t: Tables, plane: nat, src: seq<int>, n: nat, cy: nat, above: Row, left: Row)
    requires Size(n) && |src| == Pos(n, n, 0) && cy == Blocks(n)
    ensures PlaneOps(t, plane, src, n, 0, cy, above, left) == []
    ensures PlaneCtx(t, src, n, 0, cy, above, left) == (above, left)
  {
  }

  lemma RowKnown(rec: seq<int>, src: seq<int>, n: nat, cx: nat, cy: nat)
    requires Known(rec, src, n, cx, cy) && 4 * cx == n
    ensures Known(rec, src, n, 0, cy + 1)
  {
  }

  lemma RowEnds(t: Tables, plane: nat, src: seq<int>, n: nat, cx: nat, cy: nat, above: Row, left: Row)
    requires Size(n) && |src| == Pos(n, n, 0) && cx == Blocks(n) && cy < Blocks(n)
    ensures PlaneOps(t, plane, src, n, cx, cy, above, left) == PlaneOps(t, plane, src, n, 0, cy + 1, above, left)
    ensures PlaneCtx(t, src, n, cx, cy, above, left) == PlaneCtx(t, src, n, 0, cy + 1, above, left)
  {
  }

  /** One block of a plane: what is written, with what is still to come, stays the
      same. */
  method EncodeNext(t: Tables, w: Writer, src: seq<int>, rec: array<int>, n: nat, above0: Row, left0: Row, plane: nat,
                    cx: nat, cy: nat, ghost goal: seq<Op>, ghost ctx: (Row, Row))
    returns (above: Row, left: Row)
    requires w.Valid() && E.Sized(w.cdfs) && Plane(src, n) && cx < Blocks(n) && cy < Blocks(n)
    requires Known(rec[..], src, n, cx, cy)
    requires w.log + PlaneOps(t, plane, src, n, cx, cy, above0, left0) == goal
    requires PlaneCtx(t, src, n, cx, cy, above0, left0) == ctx
    modifies w, w.ms, w.cdfs, rec
    ensures w.Valid() && Known(rec[..], src, n, cx + 1, cy)
    ensures w.log + PlaneOps(t, plane, src, n, cx + 1, cy, above, left) == goal
    ensures PlaneCtx(t, src, n, cx + 1, cy, above, left) == ctx
  {
    assert BlockAt(n, 4 * cx, 4 * cy);
    PlaneStep(t, plane, src, n, cx, cy, above0, left0, w.log);
    var level := EncodeOne(t, w, src, rec, n, above0, left0, plane, cx, cy);
    above, left := With(above0, cx, level), With(left0, cy, level);
  }

  lemma PlaneStep(t: Tables, plane: nat, src: seq<int>, n: nat, cx: nat, cy: nat, above: Row, left: Row, log: seq<Op>)
    requires Size(n) && |src| == Pos(n, n, 0) && cx < Blocks(n) && cy < Blocks(n) && BlockAt(n, 4 * cx, 4 * cy)
    ensures var v := Coded(src, n, 4 * cx, 4 * cy);
      var own := BlockOps(t, plane, v, above[cx], left[cy]);
      && log + PlaneOps(t, plane, src, n, cx, cy, above, left)
         == (log + own) + PlaneOps(t, plane, src, n, cx + 1, cy, With(above, cx, Left(t, v)), With(left, cy, Left(t, v)))
      && PlaneCtx(t, src, n, cx, cy, above, left)
         == PlaneCtx(t, src, n, cx + 1, cy, With(above, cx, Left(t, v)), With(left, cy, Left(t, v)))
  {
    var v := Coded(src, n, 4 * cx, 4 * cy);
    E.Join(log, BlockOps(t, plane, v, above[cx], left[cy]),
           PlaneOps(t, plane, src, n, cx + 1, cy, With(above, cx, Left(t, v)), With(left, cy, Left(t, v))));
  }

  method EncodeRow(t: Tables, w: Writer, src: seq<int>, rec: array<int>, n: nat, above0: Row, left0: Row, plane: nat, cy: nat,
                   ghost goal: seq<Op>, ghost ctx: (Row, Row))
    returns (above: Row, left: Row)
    requires w.Valid() && E.Sized(w.cdfs) && Plane(src, n) && cy < Blocks(n) && Known(rec[..], src, n, 0, cy)
    requires w.log + PlaneOps(t, plane, src, n, 0, cy, above0, left0) == goal
    requires PlaneCtx(t, src, n, 0, cy, above0, left0) == ctx
    modifies w, w.ms, w.cdfs, rec
    ensures w.Valid() && Known(rec[..], src, n, 0, cy + 1)
    ensures w.log + PlaneOps(t, plane, src, n, 0, cy + 1, above, left) == goal
    ensures PlaneCtx(t, src, n, 0, cy + 1, above, left) == ctx
  {
    above, left := above0, left0;
    for cx := 0 to Blocks(n)
      invariant w.Valid() && Known(rec[..], src, n, cx, cy)
      invariant w.log + PlaneOps(t, plane, src, n, cx, cy, above, left) == goal
      invariant PlaneCtx(t, src, n, cx, cy, above, left) == ctx
    {
      above, left := EncodeNext(t, w, src, rec, n, above, left, plane, cx, cy, goal, ctx);
    }
    RowEnds(t, plane, src, n, Blocks(n), cy, above, left);
    RowKnown(rec[..], src, n, Blocks(n), cy);
  }

  lemma AllKnown(rec: seq<int>, src: seq<int>, n: nat)
    requires Known(rec, src, n, 0, Blocks(n))
    ensures rec == src
  {
    forall p | 0 <= p < |rec|
      ensures rec[p] == src[p]
    {
      var row, col := if n == 16 then p / 16 else p / 8, if n == 16 then p % 16 else p % 8;
      assert Pos(n, row, col) == p;
    }
  }

  // ---- a whole frame: 256 luma bytes, 64 and 64 chroma bytes

  predicate Shaped(tables: seq<seq<nat>>) {
    |tables| == TABLES && forall i :: 0 <= i < TABLES ==> |tables[i]| == Entries(i)
  }

  predicate Frame(data: seq<int>) {
    |data| == 384 && forall i :: 0 <= i < 384 ==> 0 <= data[i] < 256
  }

  function Flat(): Row {
    seq(64, _ => 64)
  }

  function HeadOps(): seq<Op> {
    [Sym(PARTITION, 0), Sym(BLOCK_SKIP, 0), Sym(Y_MODE, 0), Sym(UV_MODE, 0)]
  }

  /** The calls for the three planes; the chroma planes share their contexts. */
  function PlanesOps(t: Tables, y: seq<int>, u: seq<int>, v: seq<int>): seq<Op>
    requires |y| == 256 && |u| == |v| == 64
  {
    PlaneOps(t, 0, y, 16, 0, 0, Flat(), Flat()) + ChromaOps(t, u, v)
  }

  function ChromaOps(t: Tables, u: seq<int>, v: seq<int>): seq<Op>
    requires |u| == |v| == 64
  {
    PlaneOps(t, 1, u, 8, 0, 0, Flat(), Flat()) + LastPlaneOps(t, v, PlaneCtx(t, u, 8, 0, 0, Flat(), Flat()))
  }

  function LastPlaneOps(t: Tables, v: seq<int>, c: (Row, Row)): seq<Op>
    requires |v| == 64
  {
    PlaneOps(t, 2, v, 8, 0, 0, c.0, c.1)
  }

  function FrameOps(t: Tables, data: seq<int>): seq<Op>
    requires |data| == 384
  {
    HeadOps() + PlanesOps(t, data[..256], data[256..320], data[320..])
  }

  /** One partition, not skipped, predicted by its mean in luma and chroma. */
  method EncodeHead(w: Writer)
    requires w.Valid() && E.Sized(w.cdfs)
    modifies w, w.ms, w.cdfs
    ensures w.Valid() && w.log == old(w.log) + HeadOps()
  {
    Two(w, PARTITION, BLOCK_SKIP);
    Two(w, Y_MODE, UV_MODE);
    E.Join(old(w.log), [Sym(PARTITION, 0), Sym(BLOCK_SKIP, 0)], [Sym(Y_MODE, 0), Sym(UV_MODE, 0)]);
  }

  method Two(w: Writer, a: nat, b: nat)
    requires w.Valid() && E.Sized(w.cdfs) && a < TABLES && b < TABLES
    modifies w, w.ms, w.cdfs
    ensures w.Valid() && w.log == old(w.log) + [Sym(a, 0), Sym(b, 0)]
  {
    w.Symbol(a, 0);
    w.Symbol(b, 0);
  }

  method EncodePlanes(t: Tables, w: Writer, y: seq<int>, u: seq<int>, v: seq<int>)
    requires w.Valid() && E.Sized(w.cdfs) && Plane(y, 16) && Plane(u, 8) && Plane(v, 8)
    requires |y| == 256 && |u| == |v| == 64
    modifies w, w.ms, w.cdfs
    ensures w.Valid() && w.log == old(w.log) + PlanesOps(t, y, u, v)
  {
    ghost var luma, log := PlaneOps(t, 0, y, 16, 0, 0, Flat(), Flat()), w.log;
    EncodeLuma(t, w, y);
    EncodeChroma(t, w, u, v);
    E.Join(log, luma, ChromaOps(t, u, v));
  }

  method EncodeLuma(t: Tables, w: Writer, y: seq<int>)
    requires w.Valid() && E.Sized(w.cdfs) && Plane(y, 16) && |y| == 256
    modifies w, w.ms, w.cdfs
    ensures w.Valid() && w.log == old(w.log) + PlaneOps(t, 0, y, 16, 0, 0, Flat(), Flat())
  {
    var rec := new int[256](_ => 0);
    var above, left := EncodePlane(t, w, y, rec, 16, Flat(), Flat(), 0);
  }

  method EncodeChroma(t: Tables, w: Writer, u: seq<int>, v: seq<int>)
    requires w.Valid() && E.Sized(w.cdfs) && Plane(u, 8) && Plane(v, 8) && |u| == |v| == 64
    modifies w, w.ms, w.cdfs
    ensures w.Valid() && w.log == old(w.log) + ChromaOps(t, u, v)
  {
    var recU, recV := new int[64](_ => 128), new int[64](_ => 128);
    var above, left := EncodePlane(t, w, u, recU, 8, Flat(), Flat(), 1);
    ghost var c := (above, left);
    above, left := EncodePlane(t, w, v, recV, 8, above, left, 2);
    E.Join(old(w.log), PlaneOps(t, 1, u, 8, 0, 0, Flat(), Flat()), LastPlaneOps(t, v, c));
  }

  lemma Planes(data: seq<int>)
    requires Frame(data)
    ensures Plane(data[..256], 16) && Plane(data[256..320], 8) && Plane(data[320..], 8)
    ensures data[..256] + data[256..320] + data[320..] == data
  {
  }

  /** The bytes code exactly the calls of the frame's syntax, and are no more than
      that takes. */
  ghost predicate TileOf(t: Tables, tables: seq<seq<nat>>, tile: seq<Byte>, data: seq<int>) {
    && ValidTables(tables) && Frame(data) && Ok(START) && ValidOps(FrameOps(t, data), tables)
    && var iv := Run(Coder(START, tables), FrameOps(t, data)).iv;
       Holds(tile, iv) && iv.t <= 8 * |tile| <= iv.t + 8
  }

  /** The tile of a frame. */
  method EncodeTile(t: Tables, tables: seq<seq<nat>>, data: seq<int>) returns (tile: seq<Byte>)
    requires ValidTables(tables) && Shaped(tables) && Frame(data)
    ensures TileOf(t, tables, tile, data)
  {
    var w := new Writer(tables);
    Planes(data);
    EncodeHead(w);
    EncodePlanes(t, w, data[..256], data[256..320], data[320..]);
    assert w.log == [] + HeadOps() + PlanesOps(t, data[..256], data[256..320], data[320..]);
    assert [] + HeadOps() == HeadOps();
    tile := w.ms.Done();
  }

  // ---- the decoder

  /** Prediction and residual give the pixels back. */
  lemma AddBack(src: seq<int>, n: nat, x: nat, y: nat, pred: int, flat: seq<int>)
    requires Plane(src, n) && BlockAt(n, x, y) && flat == seq(16, _ => pred)
    ensures T.Added(flat, Residual(src, n, x, y, pred)) == Pixels(src, n, x, y)
  {
    forall k | 0 <= k < 16
      ensures T.Clip8(flat[k] + Residual(src, n, x, y, pred)[k]) == Pixels(src, n, x, y)[k]
    {
      PixelByte(src, n, x, y, k);
    }
  }

  lemma PixelByte(src: seq<int>, n: nat, x: nat, y: nat, k: nat)
    requires Plane(src, n) && BlockAt(n, x, y) && k < 16
    ensures 0 <= Pixels(src, n, x, y)[k] < 256
  {
  }

  lemma Quarters(v: Block)
    ensures T.Quarters(D.Times4(v)) == v
  {
  }

  /** A block whose values are all zero is its prediction. */
  lemma FlatResidual(src: seq<int>, n: nat, x: nat, y: nat, pred: int, v: Block)
    requires BlockAt(n, x, y) && |src| == Pos(n, n, 0) && pred == DcPred(src, n, x, y)
    requires v == Coded(src, n, x, y) && T.ZeroBlock(v)
    ensures T.ZeroBlock(Residual(src, n, x, y, pred))
  {
    T.OnlyZero(Residual(src, n, x, y, pred), v);
  }

  lemma NoResidual(src: seq<int>, n: nat, x: nat, y: nat, pred: int, residual: seq<int>)
    requires BlockAt(n, x, y) && |src| == Pos(n, n, 0) && residual == Residual(src, n, x, y, pred)
    requires T.ZeroBlock(residual)
    ensures Pixels(src, n, x, y) == seq(16, _ => pred)
  {
    forall k | 0 <= k < 16
      ensures Pixels(src, n, x, y)[k] == pred
    {
      assert residual[k] == 0;
    }
  }

  lemma FlatPixels(src: seq<int>, n: nat, x: nat, y: nat, pred: int, coef: Block)
    requires BlockAt(n, x, y) && |src| == Pos(n, n, 0) && pred == DcPred(src, n, x, y)
    requires coef == D.Times4(Coded(src, n, x, y)) && forall k :: 0 <= k < 16 ==> coef[k] == 0
    ensures Pixels(src, n, x, y) == seq(16, _ => pred)
  {
    var residual := Residual(src, n, x, y, pred);
    FlatValues(src, n, x, y, pred, coef, residual);
    NoResidual(src, n, x, y, pred, residual);
  }

  lemma FlatValues(src: seq<int>, n: nat, x: nat, y: nat, pred: int, coef: Block, residual: seq<int>)
    requires BlockAt(n, x, y) && |src| == Pos(n, n, 0) && pred == DcPred(src, n, x, y)
    requires residual == Residual(src, n, x, y, pred)
    requires coef == D.Times4(Coded(src, n, x, y)) && forall k :: 0 <= k < 16 ==> coef[k] == 0
    ensures T.ZeroBlock(residual)
  {
    NoValues(Coded(src, n, x, y), coef);
    FlatResidual(src, n, x, y, pred, Coded(src, n, x, y));
  }

  lemma NoValues(v: Block, coef: Block)
    requires coef == D.Times4(v) && forall k :: 0 <= k < 16 ==> coef[k] == 0
    ensures T.ZeroBlock(v)
  {
    forall k | 0 <= k < 16
      ensures v[k] == 0
    {
      assert coef[k] == 0;
    }
  }

  /** One block: predicted from what is decoded, its residual added. */
  method DecodeOne(t: Tables, r: Reader, dst: array<int>, n: nat, above: Row, left: Row, plane: nat, cx: nat, cy: nat,
                   ghost src: seq<int>, ghost tail: seq<Op>)
    returns (block: seq<int>, level: nat)
    requires r.Valid() && Plane(src, n) && BlockAt(n, 4 * cx, 4 * cy)
    requires Known(dst[..], src, n, cx, cy)
    requires r.rest == BlockOps(t, plane, Coded(src, n, 4 * cx, 4 * cy), above[cx], left[cy]) + tail
    modifies r, r.ms, r.cdfs
    ensures r.Valid() && r.rest == tail && block == Pixels(src, n, 4 * cx, 4 * cy)
    ensures level == Left(t, Coded(src, n, 4 * cx, 4 * cy))
  {
    var val := PredictByte(dst, n, cx, cy, src);
    CodedBound(src, n, 4 * cx, 4 * cy);
    var eob, coef;
    eob, coef, level := D.Coefs(t, r, plane, above[cx], left[cy], Coded(src, n, 4 * cx, 4 * cy), tail);
    block := Reconstruct(eob, coef, val, src, n, 4 * cx, 4 * cy);
  }

  /** The decoder's prediction, as a byte. */
  method PredictByte(dst: array<int>, n: nat, cx: nat, cy: nat, ghost src: seq<int>) returns (val: int)
    requires Plane(src, n) && BlockAt(n, 4 * cx, 4 * cy) && Known(dst[..], src, n, cx, cy)
    ensures val == DcPred(src, n, 4 * cx, 4 * cy)
  {
    val := Predict(dst, n, 4 * cx, 4 * cy);
    SamePred(dst[..], src, n, cx, cy);
    DcBound(src, n, 4 * cx, 4 * cy);
    SmallByte(val);
    val := val % 256;
  }

  lemma SmallByte(x: int)
    requires 0 <= x < 256
    ensures x % 256 == x
  {
  }

  method Reconstruct(eob: int, coef: Block, val: int, ghost src: seq<int>, ghost n: nat, ghost x: nat, ghost y: nat)
    returns (block: seq<int>)
    requires Plane(src, n) && BlockAt(n, x, y) && val == DcPred(src, n, x, y) && coef == D.Times4(Coded(src, n, x, y))
    requires eob < 0 ==> forall k :: 0 <= k < 16 ==> coef[k] == 0
    ensures block == Pixels(src, n, x, y)
  {
    var b := new int[16](_ => val);
    ghost var flat := seq(16, _ => val);
    assert b[..] == flat;
    if eob >= 0 {
      T.WhtAdd(b, coef);
      Quarters(Coded(src, n, x, y));
      T.Lossless(Residual(src, n, x, y, val));
      AddBack(src, n, x, y, val, flat);
    } else {
      FlatPixels(src, n, x, y, val, coef);
    }
    block := b[..];
  }

  method DecodeNext(t: Tables, r: Reader, dst: array<int>, n: nat, above0: Row, left0: Row, plane: nat, cx: nat, cy: nat,
                    ghost src: seq<int>, ghost ctx: (Row, Row), ghost tail: seq<Op>)
    returns (above: Row, left: Row)
    requires r.Valid() && Plane(src, n) && cx < Blocks(n) && cy < Blocks(n)
    requires Known(dst[..], src, n, cx, cy)
    requires r.rest == PlaneOps(t, plane, src, n, cx, cy, above0, left0) + tail
    requires PlaneCtx(t, src, n, cx, cy, above0, left0) == ctx
    modifies r, r.ms, r.cdfs, dst
    ensures r.Valid() && Known(dst[..], src, n, cx + 1, cy)
    ensures r.rest == PlaneOps(t, plane, src, n, cx + 1, cy, above, left) + tail
    ensures PlaneCtx(t, src, n, cx + 1, cy, above, left) == ctx
  {
    assert BlockAt(n, 4 * cx, 4 * cy);
    ghost var rest, na, nl := PlaneTake(t, plane, src, n, cx, cx + 1, cy, above0, left0, tail);
    var level := DecodeBlock(t, r, dst, n, above0, left0, plane, cx, cy, src, rest + tail);
    above, left := With(above0, cx, level), With(left0, cy, level);
  }

  method DecodeBlock(t: Tables, r: Reader, dst: array<int>, n: nat, above: Row, left: Row, plane: nat, cx: nat, cy: nat,
                     ghost src: seq<int>, ghost tail: seq<Op>)
    returns (level: nat)
    requires r.Valid() && Plane(src, n) && BlockAt(n, 4 * cx, 4 * cy)
    requires Known(dst[..], src, n, cx, cy)
    requires r.rest == BlockOps(t, plane, Coded(src, n, 4 * cx, 4 * cy), above[cx], left[cy]) + tail
    modifies r, r.ms, r.cdfs, dst
    ensures r.Valid() && r.rest == tail && Known(dst[..], src, n, cx + 1, cy)
    ensures level == Left(t, Coded(src, n, 4 * cx, 4 * cy))
  {
    var block;
    block, level := DecodeOne(t, r, dst, n, above, left, plane, cx, cy, src, tail);
    PutBlock(dst, n, cx, cy, block, src);
  }

  lemma PlaneTake(t: Tables, plane: nat, src: seq<int>, n: nat, cx: nat, nx: nat, cy: nat, above: Row, left: Row, tail: seq<Op>)
    returns (rest: seq<Op>, na: Row, nl: Row)
    requires Size(n) && |src| == Pos(n, n, 0) && cx < Blocks(n) && cy < Blocks(n) && BlockAt(n, 4 * cx, 4 * cy) && nx == cx + 1
    ensures var v := Coded(src, n, 4 * cx, 4 * cy);
      && na == With(above, cx, Left(t, v)) && nl == With(left, cy, Left(t, v))
      && PlaneOps(t, plane, src, n, cx, cy, above, left) + tail
         == BlockOps(t, plane, v, above[cx], left[cy]) + (rest + tail)
    ensures rest == PlaneOps(t, plane, src, n, nx, cy, na, nl)
    ensures PlaneCtx(t, src, n, cx, cy, above, left) == PlaneCtx(t, src, n, nx, cy, na, nl)
  {
    var v := Coded(src, n, 4 * cx, 4 * cy);
    na, nl := With(above, cx, Left(t, v)), With(left, cy, Left(t, v));
    rest := PlaneOps(t, plane, src, n, nx, cy, na, nl);
    E.Join(BlockOps(t, plane, v, above[cx], left[cy]), rest, tail);
  }

  method DecodeRow(t: Tables, r: Reader, dst: array<int>, n: nat, above0: Row, left0: Row, plane: nat, cy: nat,
                   ghost src: seq<int>, ghost ctx: (Row, Row), ghost tail: seq<Op>)
    returns (above: Row, left: Row)
    requires r.Valid() && Plane(src, n) && cy < Blocks(n)
    requires Known(dst[..], src, n, 0, cy)
    requires r.rest == PlaneOps(t, plane, src, n, 0, cy, above0, left0) + tail
    requires PlaneCtx(t, src, n, 0, cy, above0, left0) == ctx
    modifies r, r.ms, r.cdfs, dst
    ensures r.Valid() && Known(dst[..], src, n, 0, cy + 1)
    ensures r.rest == PlaneOps(t, plane, src, n, 0, cy + 1, above, left) + tail
    ensures PlaneCtx(t, src, n, 0, cy + 1, above, left) == ctx
  {
    above, left := above0, left0;
    for cx := 0 to Blocks(n)
      invariant r.Valid() && Known(dst[..], src, n, cx, cy)
      invariant r.rest == PlaneOps(t, plane, src, n, cx, cy, above, left) + tail
      invariant PlaneCtx(t, src, n, cx, cy, above, left) == ctx
    {
      above, left := DecodeNext(t, r, dst, n, above, left, plane, cx, cy, src, ctx, tail);
    }
    RowEnds(t, plane, src, n, Blocks(n), cy, above, left);
    RowKnown(dst[..], src, n, Blocks(n), cy);
  }

  method DecodeRows(t: Tables, r: Reader, dst: array<int>, n: nat, above0: Row, left0: Row, plane: nat,
                    ghost src: seq<int>, ghost ctx: (Row, Row), ghost tail: seq<Op>)
    returns (above: Row, left: Row)
    requires r.Valid() && Plane(src, n) && dst.Length == Pos(n, n, 0)
    requires r.rest == PlaneOps(t, plane, src, n, 0, 0, above0, left0) + tail
    requires PlaneCtx(t, src, n, 0, 0, above0, left0) == ctx
    modifies r, r.ms, r.cdfs, dst
    ensures r.Valid() && Known(dst[..], src, n, 0, Blocks(n))
    ensures r.rest == PlaneOps(t, plane, src, n, 0, Blocks(n), above, left) + tail
    ensures PlaneCtx(t, src, n, 0, Blocks(n), above, left) == ctx
  {
    above, left := above0, left0;
    for cy := 0 to Blocks(n)
      invariant r.Valid() && Known(dst[..], src, n, 0, cy)
      invariant r.rest == PlaneOps(t, plane, src, n, 0, cy, above, left) + tail
      invariant PlaneCtx(t, src, n, 0, cy, above, left) == ctx
    {
      above, left := DecodeRow(t, r, dst, n, above, left, plane, cy, src, ctx, tail);
    }
  }

  method DecodePlane(t: Tables, r: Reader, dst: array<int>, n: nat, above0: Row, left0: Row, plane: nat,
                     ghost src: seq<int>, ghost tail: seq<Op>)
    returns (above: Row, left: Row)
    requires r.Valid() && Plane(src, n) && dst.Length == Pos(n, n, 0)
    requires r.rest == PlaneOps(t, plane, src, n, 0, 0, above0, left0) + tail
    modifies r, r.ms, r.cdfs, dst
    ensures r.Valid() && r.rest == tail && dst[..] == src
    ensures (above, left) == PlaneCtx(t, src, n, 0, 0, above0, left0)
  {
    ghost var ctx := PlaneCtx(t, src, n, 0, 0, above0, left0);
    above, left := DecodeRows(t, r, dst, n, above0, left0, plane, src, ctx, tail);
    PlaneEnds(t, plane, src, n, Blocks(n), above, left);
    AllKnown(dst[..], src, n);
    assert [] + tail == tail;
  }

  /** Reads what stands before the planes: a partition, the skip flag, two modes.
      A still that the encoder does not write is not decoded. */
  method DecodeHead(r: Reader, ghost tail: seq<Op>) returns (ok: bool)
    requires r.Valid() && r.rest == HeadOps() + tail
    modifies r, r.ms, r.cdfs
    ensures ok && r.Valid() && r.rest == tail
  {
    var partition, skip := GetTwo(r, PARTITION, BLOCK_SKIP, [Sym(Y_MODE, 0), Sym(UV_MODE, 0)] + tail);
    var yMode, uvMode := GetTwo(r, Y_MODE, UV_MODE, tail);
    ok := partition == skip == yMode == uvMode == 0;
  }

  method GetTwo(r: Reader, a: nat, b: nat, ghost tail: seq<Op>) returns (x: nat, y: nat)
    requires r.Valid() && r.rest == [Sym(a, 0), Sym(b, 0)] + tail
    modifies r, r.ms, r.cdfs
    ensures r.Valid() && r.rest == tail && x == y == 0
  {
    x := r.Symbol(a);
    y := r.Symbol(b);
  }

  method DecodeChroma(t: Tables, r: Reader, recU: array<int>, recV: array<int>, n: nat, ghost u: seq<int>, ghost v: seq<int>)
    returns (pic: seq<int>)
    requires r.Valid() && n == 8 && Plane(u, n) && Plane(v, n) && |u| == |v| == recU.Length == recV.Length == 64
    requires r.rest == ChromaOps(t, u, v)
    modifies r, r.ms, r.cdfs, recU, recV
    ensures pic == u + v
  {
    ghost var c := PlaneCtx(t, u, n, 0, 0, Flat(), Flat());
    var above, left := DecodePlane(t, r, recU, n, Flat(), Flat(), 1, u, LastPlaneOps(t, v, c));
    var picU := recU[..];
    var picV := DecodeLast(t, r, recV, n, above, left, v, c);
    pic := picU + picV;
  }

  method DecodeLast(t: Tables, r: Reader, rec: array<int>, n: nat, above0: Row, left0: Row, ghost v: seq<int>, ghost c: (Row, Row))
    returns (pic: seq<int>)
    requires r.Valid() && n == 8 && Plane(v, n) && |v| == rec.Length == 64 && c == (above0, left0)
    requires r.rest == LastPlaneOps(t, v, c)
    modifies r, r.ms, r.cdfs, rec
    ensures pic == v
  {
    NoTail(LastPlaneOps(t, v, c));
    var above, left := DecodePlane(t, r, rec, n, above0, left0, 2, v, []);
    pic := rec[..];
  }

  lemma NoTail(ops: seq<Op>)
    ensures ops + [] == ops
  {
  }

  method DecodePlanes(t: Tables, r: Reader, recY: array<int>, recU: array<int>, recV: array<int>, n: nat,
                      ghost y: seq<int>, ghost u: seq<int>, ghost v: seq<int>)
    returns (pic: seq<int>)
    requires r.Valid() && n == 16 && Plane(y, n) && Plane(u, 8) && Plane(v, 8)
    requires |y| == recY.Length == 256 && |u| == |v| == recU.Length == recV.Length == 64
    requires r.rest == PlanesOps(t, y, u, v)
    modifies r, r.ms, r.cdfs, recY, recU, recV
    ensures pic == y + u + v
  {
    var above, left := DecodePlane(t, r, recY, n, Flat(), Flat(), 0, y, ChromaOps(t, u, v));
    var picY := recY[..];
    var picUV := DecodeChroma(t, r, recU, recV, 8, u, v);
    pic := picY + picUV;
    Cat(y, u, v);
  }

  lemma Cat(a: seq<int>, b: seq<int>, c: seq<int>)
    ensures a + (b + c) == a + b + c
  {
  }

  /** Decoding a tile of a frame gives the frame. */
  method DecodeTile(t: Tables, tables: seq<seq<nat>>, tile: seq<Byte>, ghost data: seq<int>) returns (ok: bool, pic: seq<int>)
    requires Shaped(tables) && TileOf(t, tables, tile, data)
    ensures ok && pic == data
  {
    var y, u, v := new int[256](_ => 0), new int[64](_ => 128), new int[64](_ => 128);
    var r := new Reader(tables, tile, FrameOps(t, data));
    ok, pic := DecodeFrame(t, r, y, u, v, data);
  }

  method DecodeFrame(t: Tables, r: Reader, y: array<int>, u: array<int>, v: array<int>, ghost data: seq<int>) returns (ok: bool, pic: seq<int>)
    requires r.Valid() && Frame(data) && y.Length == 256 && u.Length == v.Length == 64 && r.rest == FrameOps(t, data)
    modifies r, r.ms, r.cdfs, y, u, v
    ensures ok && pic == data
  {
    Planes(data);
    ok := DecodeHead(r, PlanesOps(t, data[..256], data[256..320], data[320..]));
    pic := [];
    if ok {
      pic := DecodePlanes(t, r, y, u, v, 16, data[..256], data[256..320], data[320..]);
    }
  }

  /** Every frame survives: encoded into a tile and decoded from it, with two sets
      of distributions that adapt on their own. */
  method Transcode(t: Tables, tables: seq<seq<nat>>, data: seq<int>) returns (tile: seq<Byte>, ok: bool, pic: seq<int>)
    requires ValidTables(tables) && Shaped(tables) && Frame(data)
    ensures ok && pic == data
  {
    tile := EncodeTile(t, tables, data);
    ok, pic := DecodeTile(t, tables, tile, data);
  }
}
