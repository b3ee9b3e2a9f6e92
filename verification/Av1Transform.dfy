// The lossless 4x4 Walsh-Hadamard transform (AV1 Bitstream & Decoding Process
// Specification, section 7.13.2.10): integer lifting steps, which the decoder's
// steps undo exactly, rounding included.

module Av1Transform {

  datatype Four = Four(a: int, b: int, c: int, d: int)

  /** x >> 1, rounding down, stated by steps of two. */
  function Half(x: int): int
    decreases if x < 0 then -x else x
  {
    if x >= 2 then Half(x - 2) + 1 else if x >= 0 then 0 else if x >= -2 then -1 else Half(x + 2) - 1
  }

  lemma {:induction false} HalfIs(x: int)
    ensures Half(x) == x / 2
    decreases if x < 0 then -x else x
  {
    if x >= 2 {
      HalfIs(x - 2);
    } else if x < -2 {
      HalfIs(x + 2);
    }
  }

  /** One forward pass over four values. */
  function Forward(x: Four): Four {
    var a1 := x.a + x.b;
    var d1 := x.d - x.c;
    var e := Half(a1 - d1);
    var b1 := e - x.b;
    var c1 := e - x.c;
    Four(a1 - c1, c1, d1 + b1, b1)
  }

  /** The decoder's pass. */
  function Inverse(i: Four): Four {
    var t0 := i.a + i.b;
    var t2 := i.c - i.d;
    var t4 := Half(t0 - t2);
    var t3 := t4 - i.d;
    var t1 := t4 - i.b;
    Four(t0 - t3, t3, t1, t2 + t1)
  }

  /** Exact for all integers, in both orders: the lifting steps lose nothing. */
  lemma ForwardInverse(x: Four)
    ensures Inverse(Forward(x)) == x
    ensures Forward(Inverse(x)) == x
  {
  }

  predicate Near(x: int, m: nat) {
    0 <= x + m <= 2 * m
  }

  predicate Within(x: Four, m: nat) {
    Near(x.a, m) && Near(x.b, m) && Near(x.c, m) && Near(x.d, m)
  }

  lemma ForwardBound(x: Four, m: nat)
    requires Within(x, m)
    ensures Within(Forward(x), 5 * m)
  {
    HalfIs(x.a + x.b - (x.d - x.c));
  }

  /** Column i of a 4x4 block stored by rows. */
  function Column(s: seq<int>, i: nat): Four
    requires |s| == 16 && i < 4
  {
    Four(s[i], s[4 + i], s[8 + i], s[12 + i])
  }

  function Row(s: seq<int>, i: nat): Four
    requires |s| == 16 && i < 4
  {
    Four(s[4 * i], s[4 * i + 1], s[4 * i + 2], s[4 * i + 3])
  }

  /** The block with these rows. */
  function Rows(p: Four, q: Four, r: Four, t: Four): (s: seq<int>)
    ensures |s| == 16
  {
    [p.a, p.b, p.c, p.d, q.a, q.b, q.c, q.d, r.a, r.b, r.c, r.d, t.a, t.b, t.c, t.d]
  }

  /** The block with these columns. */
  function Columns(p: Four, q: Four, r: Four, t: Four): (s: seq<int>)
    ensures |s| == 16
  {
    [p.a, q.a, r.a, t.a, p.b, q.b, r.b, t.b, p.c, q.c, r.c, t.c, p.d, q.d, r.d, t.d]
  }

  /** Every column transformed, into a row. */
  function Mid(raster: seq<int>): (mid: seq<int>)
    requires |raster| == 16
    ensures |mid| == 16
  {
    Rows(Forward(Column(raster, 0)), Forward(Column(raster, 1)), Forward(Column(raster, 2)), Forward(Column(raster, 3)))
  }

  /** The transform of a block, transposed: entry row + 4 * col of the result is
      the Walsh value in that row and column. */
  function Walsh(raster: seq<int>): (out: seq<int>)
    requires |raster| == 16
    ensures |out| == 16
  {
    var mid := Mid(raster);
    Columns(Forward(Column(mid, 0)), Forward(Column(mid, 1)), Forward(Column(mid, 2)), Forward(Column(mid, 3)))
  }

  /** The inverse: first each transposed row, then each column. */
  function Undone(walsh: seq<int>): (tmp: seq<int>)
    requires |walsh| == 16
    ensures |tmp| == 16
  {
    Rows(Inverse(Column(walsh, 0)), Inverse(Column(walsh, 1)), Inverse(Column(walsh, 2)), Inverse(Column(walsh, 3)))
  }

  function Unwalsh(walsh: seq<int>): (out: seq<int>)
    requires |walsh| == 16
    ensures |out| == 16
  {
    var tmp := Undone(walsh);
    Columns(Inverse(Column(tmp, 0)), Inverse(Column(tmp, 1)), Inverse(Column(tmp, 2)), Inverse(Column(tmp, 3)))
  }

  lemma ColumnOf(p: Four, q: Four, r: Four, t: Four)
    ensures var s := Columns(p, q, r, t);
      Column(s, 0) == p && Column(s, 1) == q && Column(s, 2) == r && Column(s, 3) == t
  {
  }

  lemma ByColumns(s: seq<int>)
    requires |s| == 16
    ensures Columns(Column(s, 0), Column(s, 1), Column(s, 2), Column(s, 3)) == s
  {
  }

  lemma ByRows(s: seq<int>)
    requires |s| == 16
    ensures Rows(Row(s, 0), Row(s, 1), Row(s, 2), Row(s, 3)) == s
  {
  }

  /** The first half of the inverse gives back the first half of the transform. */
  lemma Halfway(mid: seq<int>)
    requires |mid| == 16
    ensures Undone(Columns(Forward(Column(mid, 0)), Forward(Column(mid, 1)), Forward(Column(mid, 2)), Forward(Column(mid, 3))))
         == Rows(Column(mid, 0), Column(mid, 1), Column(mid, 2), Column(mid, 3))
  {
    ColumnOf(Forward(Column(mid, 0)), Forward(Column(mid, 1)), Forward(Column(mid, 2)), Forward(Column(mid, 3)));
    ForwardInverse(Column(mid, 0));
    ForwardInverse(Column(mid, 1));
    ForwardInverse(Column(mid, 2));
    ForwardInverse(Column(mid, 3));
  }

  /** Turning rows into columns. */
  lemma Transposed(p: Four, q: Four, r: Four, t: Four)
    ensures var m := Rows(p, q, r, t);
      var s := Rows(Column(m, 0), Column(m, 1), Column(m, 2), Column(m, 3));
      Column(s, 0) == p && Column(s, 1) == q && Column(s, 2) == r && Column(s, 3) == t
  {
  }

  /** The inverse transform of a transform is the block. */
  lemma Lossless(raster: seq<int>)
    requires |raster| == 16
    ensures Unwalsh(Walsh(raster)) == raster
  {
    var mid := Mid(raster);
    Halfway(mid);
    Transposed(Forward(Column(raster, 0)), Forward(Column(raster, 1)), Forward(Column(raster, 2)), Forward(Column(raster, 3)));
    ForwardInverse(Column(raster, 0));
    ForwardInverse(Column(raster, 1));
    ForwardInverse(Column(raster, 2));
    ForwardInverse(Column(raster, 3));
    ByColumns(raster);
  }

  predicate AllNear(s: seq<int>, m: nat) {
    forall k :: 0 <= k < |s| ==> Near(s[k], m)
  }

  /** Residuals of bytes give Walsh values the decoder does not clip. */
  lemma WalshBound(raster: seq<int>)
    requires |raster| == 16 && AllNear(raster, 255)
    ensures AllNear(Walsh(raster), 6375)
  {
    for i := 0 to 4
      invariant forall j :: 0 <= j < i ==> Within(Forward(Column(raster, j)), 1275)
    {
      ForwardBound(Column(raster, i), 255);
    }
    var mid := Mid(raster);
    for i := 0 to 4
      invariant forall j :: 0 <= j < i ==> Within(Forward(Column(mid, j)), 6375)
    {
      ForwardBound(Column(mid, i), 1275);
    }
  }

  /** The encoder's transform. What it stores is four times the Walsh value. */
  method Fwht(raster: seq<int>) returns (out: seq<int>)
    requires |raster| == 16
    ensures |out| == 16 && forall k :: 0 <= k < 16 ==> out[k] == 4 * Walsh(raster)[k]
  {
    var mid := FirstPass(raster);
    out := SecondPass(mid);
    ByColumns(Walsh(raster));
    FourTimes(out, Walsh(raster));
  }

  lemma FourTimes(out: seq<int>, w: seq<int>)
    requires |out| == |w| == 16
    requires forall i :: 0 <= i < 4 ==> Column(out, i) == Quadruple(Column(w, i))
    ensures forall k :: 0 <= k < 16 ==> out[k] == 4 * w[k]
  {
    ByColumns(out);
    ByColumns(w);
    assert Column(out, 0) == Quadruple(Column(w, 0));
    assert Column(out, 1) == Quadruple(Column(w, 1));
    assert Column(out, 2) == Quadruple(Column(w, 2));
    assert Column(out, 3) == Quadruple(Column(w, 3));
  }

  method FirstPass(raster: seq<int>) returns (out: seq<int>)
    requires |raster| == 16
    ensures out == Mid(raster)
  {
    var mid := new int[16](_ => 0);
    for i := 0 to 4
      invariant forall j :: 0 <= j < i ==> Row(mid[..], j) == Forward(Column(raster, j))
    {
      var a, b, c, d := Lift(raster[0 * 4 + i], raster[1 * 4 + i], raster[2 * 4 + i], raster[3 * 4 + i]);
      SetRow(mid, i, Four(a, c, d, b));
    }
    out := mid[..];
    ByRows(out);
  }

  method SetRow(s: array<int>, y: nat, f: Four)
    requires s.Length == 16 && y < 4
    modifies s
    ensures Row(s[..], y) == f
    ensures forall j :: 0 <= j < 4 && j != y ==> Row(s[..], j) == old(Row(s[..], j))
  {
    s[4 * y], s[4 * y + 1], s[4 * y + 2], s[4 * y + 3] := f.a, f.b, f.c, f.d;
  }

  method SetColumn(s: array<int>, x: nat, f: Four)
    requires s.Length == 16 && x < 4
    modifies s
    ensures Column(s[..], x) == f
    ensures forall j :: 0 <= j < 4 && j != x ==> Column(s[..], j) == old(Column(s[..], j))
  {
    s[x], s[4 + x], s[8 + x], s[12 + x] := f.a, f.b, f.c, f.d;
  }

  method SecondPass(mid: seq<int>) returns (out: seq<int>)
    requires |mid| == 16
    ensures |out| == 16
    ensures forall i :: 0 <= i < 4 ==> Column(out, i) == Quadruple(Forward(Column(mid, i)))
  {
    var res := new int[16](_ => 0);
    for i := 0 to 4
      invariant forall j :: 0 <= j < i ==> Column(res[..], j) == Quadruple(Forward(Column(mid, j)))
    {
      var f := LiftColumn(mid, i);
      SetColumn(res, i, f);
    }
    out := res[..];
  }

  method LiftColumn(mid: seq<int>, i: nat) returns (f: Four)
    requires |mid| == 16 && i < 4
    ensures f == Quadruple(Forward(Column(mid, i)))
  {
    var a, b, c, d := Lift(mid[4 * 0 + i], mid[4 * 1 + i], mid[4 * 2 + i], mid[4 * 3 + i]);
    f := Four(a * 4, c * 4, d * 4, b * 4);
  }

  function Quadruple(x: Four): Four {
    Four(4 * x.a, 4 * x.b, 4 * x.c, 4 * x.d)
  }

  /** The lifting steps, each value updated in turn. */
  method Lift(a0: int, b0: int, c0: int, d0: int) returns (a: int, b: int, c: int, d: int)
    ensures Four(a, c, d, b) == Forward(Four(a0, b0, c0, d0))
  {
    a, b, c, d := a0, b0, c0, d0;
    a := a + b;
    d := d - c;
    HalfIs(a - d);
    var e := (a - d) / 2;
    b := e - b;
    c := e - c;
    a := a - c;
    d := d + b;
  }

  /** One decoder pass, in place. */
  method Wht4(c: array<int>, stride: nat)
    requires stride > 0 && c.Length > 3 * stride
    modifies c
    ensures Four(c[0], c[stride], c[2 * stride], c[3 * stride])
         == Inverse(old(Four(c[0], c[stride], c[2 * stride], c[3 * stride])))
    ensures forall k :: 0 <= k < c.Length && k !in {0, stride, 2 * stride, 3 * stride} ==> c[k] == old(c[k])
  {
    var i0, i1 := c[0], c[stride];
    var i2, i3 := c[2 * stride], c[3 * stride];
    var t0 := i0 + i1;
    var t2 := i2 - i3;
    HalfIs(t0 - t2);
    var t4 := (t0 - t2) / 2;
    var t3 := t4 - i3;
    var t1 := t4 - i1;
    c[0] := t0 - t3;
    c[stride] := t3;
    c[2 * stride] := t1;
    c[3 * stride] := t2 + t1;
  }

  function Clip8(x: int): (r: int)
    ensures 0 <= r < 256
  {
    if x < 0 then 0 else if x > 255 then 255 else x
  }

  /** Adds the inverse transform of the stored coefficients to a predicted block. */
  method WhtAdd(dst: array<int>, coef: seq<int>)
    requires dst.Length == 16 && |coef| == 16
    modifies dst
    ensures dst[..] == Added(old(dst[..]), Unwalsh(Quarters(coef)))
  {
    var cs := Quarters(coef);
    var tmp := RowPass(cs);
    ghost var was := dst[..];
    ColumnPass(dst, tmp);
    AddedColumns(was, dst[..], tmp);
  }

  method RowPass(cs: seq<int>) returns (tmp: seq<int>)
    requires |cs| == 16
    ensures tmp == Undone(cs)
  {
    var t := new int[16](_ => 0);
    for y := 0 to 4
      invariant forall j :: 0 <= j < y ==> Row(t[..], j) == Inverse(Column(cs, j))
    {
      var row := new int[] [cs[y], cs[y + 4], cs[y + 8], cs[y + 12]];
      Wht4(row, 1);
      SetRow(t, y, Four(row[0], row[1], row[2], row[3]));
    }
    tmp := t[..];
    ByRows(tmp);
  }

  method ColumnPass(dst: array<int>, tmp: seq<int>)
    requires dst.Length == 16 && |tmp| == 16
    modifies dst
    ensures forall j :: 0 <= j < 4 ==> Column(dst[..], j) == AddFour(old(Column(dst[..], j)), Inverse(Column(tmp, j)))
  {
    for x := 0 to 4
      invariant forall j :: 0 <= j < x ==> Column(dst[..], j) == AddFour(old(Column(dst[..], j)), Inverse(Column(tmp, j)))
      invariant forall j :: x <= j < 4 ==> Column(dst[..], j) == old(Column(dst[..], j))
    {
      var col := new int[] [tmp[x], tmp[4 + x], tmp[8 + x], tmp[12 + x]];
      Wht4(col, 1);
      AddColumn(dst, x, col);
    }
  }

  method AddColumn(dst: array<int>, x: nat, col: array<int>)
    requires dst.Length == 16 && x < 4 && col.Length == 4 && col != dst
    modifies dst
    ensures Column(dst[..], x) == AddFour(old(Column(dst[..], x)), Four(col[0], col[1], col[2], col[3]))
    ensures forall j :: 0 <= j < 4 && j != x ==> Column(dst[..], j) == old(Column(dst[..], j))
  {
    dst[x] := Clip8(dst[x] + col[0]);
    dst[4 + x] := Clip8(dst[4 + x] + col[1]);
    dst[8 + x] := Clip8(dst[8 + x] + col[2]);
    dst[12 + x] := Clip8(dst[12 + x] + col[3]);
  }

  lemma AddedColumns(was: seq<int>, now: seq<int>, tmp: seq<int>)
    requires |was| == |now| == |tmp| == 16
    requires forall j :: 0 <= j < 4 ==> Column(now, j) == AddFour(Column(was, j), Inverse(Column(tmp, j)))
    ensures var out := Columns(Inverse(Column(tmp, 0)), Inverse(Column(tmp, 1)), Inverse(Column(tmp, 2)), Inverse(Column(tmp, 3)));
      now == Added(was, out)
  {
    ByColumns(now);
    AddedOne(was, now, tmp, 0);
    AddedOne(was, now, tmp, 1);
    AddedOne(was, now, tmp, 2);
    AddedOne(was, now, tmp, 3);
    ColumnOf(Inverse(Column(tmp, 0)), Inverse(Column(tmp, 1)), Inverse(Column(tmp, 2)), Inverse(Column(tmp, 3)));
  }

  lemma AddedOne(was: seq<int>, now: seq<int>, tmp: seq<int>, j: nat)
    requires |was| == |now| == |tmp| == 16 && j < 4
    requires Column(now, j) == AddFour(Column(was, j), Inverse(Column(tmp, j)))
    ensures now[j] == Clip8(was[j] + Inverse(Column(tmp, j)).a) && now[4 + j] == Clip8(was[4 + j] + Inverse(Column(tmp, j)).b)
    ensures now[8 + j] == Clip8(was[8 + j] + Inverse(Column(tmp, j)).c) && now[12 + j] == Clip8(was[12 + j] + Inverse(Column(tmp, j)).d)
  {
  }

  function Quarters(coef: seq<int>): (cs: seq<int>)
    ensures |cs| == |coef|
  {
    seq(|coef|, k requires 0 <= k < |coef| => coef[k] / 4)
  }

  /** Entry by entry, clipped to a byte. */
  function Added(s: seq<int>, t: seq<int>): (r: seq<int>)
    requires |s| == |t|
    ensures |r| == |s|
  {
    seq(|s|, k requires 0 <= k < |s| => Clip8(s[k] + t[k]))
  }

  function AddFour(x: Four, y: Four): Four {
    Four(Clip8(x.a + y.a), Clip8(x.b + y.b), Clip8(x.c + y.c), Clip8(x.d + y.d))
  }

  // ---- a block whose values are all zero

  predicate Zero(x: Four) {
    x.a == 0 && x.b == 0 && x.c == 0 && x.d == 0
  }

  lemma OnlyZeroFour(x: Four)
    requires Zero(Forward(x))
    ensures Zero(x)
  {
    var a1, d1 := x.a + x.b, x.d - x.c;
    assert a1 == 0 && d1 == 0;
    HalfIs(a1 - d1);
  }

  predicate ZeroBlock(s: seq<int>)
    requires |s| == 16
  {
    Zero(Column(s, 0)) && Zero(Column(s, 1)) && Zero(Column(s, 2)) && Zero(Column(s, 3))
  }

  lemma ZeroRows(p: Four, q: Four, r: Four, t: Four)
    requires ZeroBlock(Rows(p, q, r, t))
    ensures Zero(p) && Zero(q) && Zero(r) && Zero(t)
  {
  }

  lemma ZeroColumns(p: Four, q: Four, r: Four, t: Four)
    requires ZeroBlock(Columns(p, q, r, t))
    ensures Zero(p) && Zero(q) && Zero(r) && Zero(t)
  {
  }

  lemma ZeroAll(p: Four, q: Four, r: Four, t: Four)
    requires Zero(Forward(p)) && Zero(Forward(q)) && Zero(Forward(r)) && Zero(Forward(t))
    ensures Zero(p) && Zero(q) && Zero(r) && Zero(t)
  {
    OnlyZeroFour(p);
    OnlyZeroFour(q);
    OnlyZeroFour(r);
    OnlyZeroFour(t);
  }

  lemma ZeroMid(mid: seq<int>)
    requires |mid| == 16
    requires ZeroBlock(Columns(Forward(Column(mid, 0)), Forward(Column(mid, 1)), Forward(Column(mid, 2)), Forward(Column(mid, 3))))
    ensures ZeroBlock(mid)
  {
    ZeroColumns(Forward(Column(mid, 0)), Forward(Column(mid, 1)), Forward(Column(mid, 2)), Forward(Column(mid, 3)));
    ZeroAll(Column(mid, 0), Column(mid, 1), Column(mid, 2), Column(mid, 3));
  }

  lemma ZeroRaster(raster: seq<int>)
    requires |raster| == 16 && ZeroBlock(Mid(raster))
    ensures ZeroBlock(raster)
  {
    ZeroRows(Forward(Column(raster, 0)), Forward(Column(raster, 1)), Forward(Column(raster, 2)), Forward(Column(raster, 3)));
    ZeroAll(Column(raster, 0), Column(raster, 1), Column(raster, 2), Column(raster, 3));
  }

  /** Only a block of zeros has all values zero. */
  lemma OnlyZero(raster: seq<int>, walsh: seq<int>)
    requires |raster| == 16 && walsh == Walsh(raster) && ZeroBlock(walsh)
    ensures ZeroBlock(raster)
  {
    ZeroMid(Mid(raster));
    ZeroRaster(raster);
  }
}
