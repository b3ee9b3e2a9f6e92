// How long a coded frame can be: a bound on the calls for a block, and on the bytes
// for the calls. It is far below what a size field can say.

module Av1Length {
  import opened Bits
  import opened Av1Syntax
  import opened Av1Still
  import M = MsacModel

  // ---- bytes for calls

  lemma {:induction false} RunLength(c: M.Coder, ops: seq<M.Op>)
    requires M.Ok(c.iv) && M.ValidTables(c.tables) && M.ValidOps(ops, c.tables)
    ensures M.Run(c, ops).iv.t <= c.iv.t + 16 * |ops|
    decreases |ops|
  {
    if ops != [] {
      StepLength(c, ops[0]);
      RunLength(M.Step(c, ops[0]), ops[1..]);
    }
  }

  lemma StepLength(c: M.Coder, op: M.Op)
    requires M.Ok(c.iv) && M.ValidTables(c.tables) && M.ValidOp(op, c.tables)
    ensures M.Step(c, op).iv.t <= c.iv.t + 16
  {
  }

  // ---- calls for a block

  const BLOCK := 550

  lemma {:induction false} BitsLength(n: nat, x: nat)
    ensures |BitOps(n, x)| == n
  {
    if n > 0 {
      BitsLength(n - 1, x / 2);
    }
  }

  lemma GolombLength(x: nat)
    requires x <= 8191
    ensures |GolombOps(x)| <= 27
  {
    BitLenBounds(x + 1);
    Thirteen();
    if BitLen(x + 1) > 14 {
      Pow2Mono(14, BitLen(x + 1) - 1);
    }
    BitsLength(BitLen(x + 1) - 1, x + 1);
  }

  lemma Thirteen()
    ensures Pow2(14) == 16384
  {
    Pow2Values();
    assert Shl(1, 14) == 2 * Shl(1, 13) == 4 * Shl(1, 12);
  }

  lemma TailLength(x: int)
    requires Abs(x) <= 8191
    ensures |TailOps(x)| <= 27
  {
    if Abs(x) >= 15 {
      GolombLength(Abs(x) - 15);
    }
  }

  lemma HiLength(table: nat, tok: nat)
    requires 3 <= tok <= 15
    ensures |HiTokOps(table, tok)| <= 4
  {
    HiFromLength(table, 12, tok);
    HiFromLength(table, 9, tok);
    HiFromLength(table, 6, tok);
    HiFromLength(table, 3, tok);
  }

  lemma HiFromLength(table: nat, base: nat, tok: nat)
    requires base in {3, 6, 9, 12}
    requires base < 12 && base + 3 <= tok ==> |HiFrom(table, base + 3, tok)| <= (12 - base) / 3
    ensures base <= tok ==> |HiFrom(table, base, tok)| <= (15 - base) / 3
  {
  }

  lemma TokenLength(t: Tables, ch: nat, v: Block, i: nat, eob: nat)
    requires i < eob < 16
    ensures |TokenOps(t, ch, v, i, eob)| <= 5
  {
    var rc, levels := t.scan[i], Levels(t, v, i + 1, eob);
    var shown := if i > 0 then Shown(v[rc]) else Shown(v[0]);
    var br := if i > 0 then BrTok(ch, HiBase(rc) + HiStep(NearMag(levels, rc))) else BrTok(ch, HiStep(NearMag(levels, 0)));
    if shown >= 3 {
      HiLength(br, shown);
    }
  }

  lemma {:induction false} TokensLength(t: Tables, ch: nat, v: Block, n: nat, eob: nat)
    requires n <= eob < 16
    ensures |TokensOps(t, ch, v, n, eob)| <= 5 * n
  {
    if n > 0 {
      TokensLength(t, ch, v, n - 1, eob);
      TokenLength(t, ch, v, n - 1, eob);
    }
  }

  lemma LastLength(t: Tables, ch: nat, v: Block, eob: nat)
    requires eob < 16 && v[t.scan[eob]] != 0
    ensures |LastTokenOps(t, ch, v, eob)| <= 5
  {
    var rc := t.scan[eob];
    if Shown(v[rc]) >= 3 {
      HiLength(BrTok(ch, if eob == 0 then 0 else HiBase(rc)), Shown(v[rc]));
    }
  }

  ghost predicate Small(v: Block) {
    forall k :: 0 <= k < 16 ==> Abs(v[k]) <= 8191
  }

  lemma {:induction false} SignsLength(t: Tables, v: Block, i: nat, eob: nat)
    requires eob < 16 && Small(v) && i <= 16
    ensures |SignsOps(t, v, i, eob)| <= 28 * (16 - i)
    decreases 16 - i, eob
  {
    if i <= eob {
      SignsLength(t, v, i + 1, eob);
      TailLength(v[t.scan[i]]);
    }
  }

  lemma EobLength(ch: nat, eob: nat)
    requires eob < 16
    ensures |EobOps(ch, eob)| <= 4
  {
    if eob >= 2 {
      BitsLength(EobClass(eob) - 2, EobLow(eob));
    }
  }

  lemma CodedLength(t: Tables, ch: nat, v: Block, eob: nat, sign: nat)
    requires eob < 16 && v[t.scan[eob]] != 0 && Small(v)
    ensures |CodedOps(t, ch, v, eob, sign)| < BLOCK
  {
    EobLength(ch, eob);
    LastLength(t, ch, v, eob);
    TokensLength(t, ch, v, eob, eob);
    TailLength(v[0]);
    SignsLength(t, v, 1, eob);
  }

  lemma BlockLength(t: Tables, plane: nat, v: Block, above: nat, left: nat)
    requires Small(v)
    ensures |BlockOps(t, plane, v, above, left)| <= BLOCK
  {
    var eob := Eob(t, v, |t.scan|);
    if eob >= 0 {
      CodedLength(t, if plane != 0 then 1 else 0, v, eob, SignCtx(above, left));
    }
  }

  // ---- calls for a frame

  /** The blocks of a plane from column cx of row cy on. */
  function Cells(n: nat, cx: nat, cy: nat): int {
    if n == 16 then 16 - 4 * cy - cx else 4 - 2 * cy - cx
  }

  /** The most calls for that many blocks. */
  function Most(cells: int): int {
    BLOCK * cells
  }

  lemma {:induction false} PlaneLength(t: Tables, plane: nat, src: seq<int>, n: nat, cx: nat, cy: nat, above: Row, left: Row)
    requires Plane(src, n) && cx <= Blocks(n) && (cy < Blocks(n) || (cx == 0 && cy == Blocks(n)))
    ensures |PlaneOps(t, plane, src, n, cx, cy, above, left)| <= Most(Cells(n, cx, cy))
    decreases Blocks(n) - cy, Blocks(n) - cx
  {
    if cy < Blocks(n) {
      if cx == Blocks(n) {
        PlaneLength(t, plane, src, n, 0, cy + 1, above, left);
      } else {
        PlaneBlock(t, plane, src, n, cx, cx + 1, cy, above, left, Cells(n, cx + 1, cy));
      }
    }
  }

  lemma {:induction false} PlaneBlock(t: Tables, plane: nat, src: seq<int>, n: nat, cx: nat, nx: nat, cy: nat, above: Row, left: Row, k: int)
    requires Plane(src, n) && cx < Blocks(n) && cy < Blocks(n) && nx == cx + 1 && k == Cells(n, nx, cy)
    ensures |PlaneOps(t, plane, src, n, cx, cy, above, left)| <= Most(k + 1)
    decreases Blocks(n) - cy, Blocks(n) - cx, 0
  {
    assert BlockAt(n, 4 * cx, 4 * cy);
    var rest, na, nl := PlaneTake(t, plane, src, n, cx, nx, cy, above, left, []);
    PlaneLength(t, plane, src, n, nx, cy, na, nl);
    CodedBound(src, n, 4 * cx, 4 * cy);
    OneMore(t, plane, Coded(src, n, 4 * cx, 4 * cy), above[cx], left[cy], rest,
            PlaneOps(t, plane, src, n, cx, cy, above, left), k, k + 1);
  }

  lemma OneMore(t: Tables, plane: nat, v: Block, above: nat, left: nat, rest: seq<M.Op>, all: seq<M.Op>, k: int, k': int)
    requires Small(v) && all + [] == BlockOps(t, plane, v, above, left) + (rest + []) && |rest| <= Most(k) && k' == k + 1
    ensures |all| <= Most(k')
  {
    BlockLength(t, plane, v, above, left);
    assert |all + []| == |all| && |rest + []| == |rest|;
  }

  lemma FrameLength(t: Tables, data: seq<int>)
    requires Frame(data)
    ensures |FrameOps(t, data)| <= 4 + Most(24)
  {
    Planes(data);
    PlaneLength(t, 0, data[..256], 16, 0, 0, Flat(), Flat());
    ChromaLength(t, data[256..320], data[320..]);
  }

  lemma ChromaLength(t: Tables, u: seq<int>, v: seq<int>)
    requires Plane(u, 8) && Plane(v, 8) && |u| == |v| == 64
    ensures |ChromaOps(t, u, v)| <= Most(8)
  {
    var c := PlaneCtx(t, u, 8, 0, 0, Flat(), Flat());
    PlaneLength(t, 1, u, 8, 0, 0, Flat(), Flat());
    PlaneLength(t, 2, v, 8, 0, 0, c.0, c.1);
  }

  /** A tile of a frame has less than 2^15 bytes. */
  lemma TileLength(t: Tables, tables: seq<seq<nat>>, tile: seq<Byte>, data: seq<int>)
    requires TileOf(t, tables, tile, data)
    ensures |tile| < 0x8000
  {
    FrameLength(t, data);
    RunLength(M.Coder(M.START, tables), FrameOps(t, data));
  }

  lemma FitsSize(size: nat)
    requires size < 0x8000
    ensures size + 3 < Pow2(56)
  {
    Pow2Mono(16, 56);
    Pow2Values();
  }
}
