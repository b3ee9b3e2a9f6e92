// What the mean prediction is, pixel by pixel: the rounded mean of the neighbours
// there are, none of them preferred.

module Av1Predict {
  import opened Av1Still

  /** The row above a block, and the column beside it, pixel by pixel. */
  ghost predicate Over(s: seq<int>, n: nat, x: nat, y: nat, a: int, b: int, c: int, d: int) {
    && BlockAt(n, x, y) && y > 0 && |s| == Pos(n, n, 0)
    && s[Pos(n, y - 1, x)] == a && s[Pos(n, y - 1, x + 1)] == b && s[Pos(n, y - 1, x + 2)] == c && s[Pos(n, y - 1, x + 3)] == d
  }

  ghost predicate Left(s: seq<int>, n: nat, x: nat, y: nat, a: int, b: int, c: int, d: int) {
    && BlockAt(n, x, y) && x > 0 && |s| == Pos(n, n, 0)
    && s[Pos(n, y, x - 1)] == a && s[Pos(n, y + 1, x - 1)] == b && s[Pos(n, y + 2, x - 1)] == c && s[Pos(n, y + 3, x - 1)] == d
  }

  lemma OverSum(s: seq<int>, n: nat, x: nat, y: nat, a: int, b: int, c: int, d: int)
    requires Over(s, n, x, y, a, b, c, d)
    ensures Above(s, n, x, y, 4) == a + b + c + d
  {
    assert Above(s, n, x, y, 1) == a;
    assert Above(s, n, x, y, 2) == a + b;
    assert Above(s, n, x, y, 3) == a + b + c;
  }

  lemma LeftSum(s: seq<int>, n: nat, x: nat, y: nat, a: int, b: int, c: int, d: int)
    requires Left(s, n, x, y, a, b, c, d)
    ensures Beside(s, n, x, y, 4) == a + b + c + d
  {
    assert Beside(s, n, x, y, 1) == a;
    assert Beside(s, n, x, y, 2) == a + b;
    assert Beside(s, n, x, y, 3) == a + b + c;
  }

  /** With neighbours on both sides, the mean of the eight, halves rounded up. */
  lemma MeanOfEight(s: seq<int>, n: nat, x: nat, y: nat, a: int, b: int, c: int, d: int, e: int, f: int, g: int, h: int)
    requires Over(s, n, x, y, a, b, c, d) && Left(s, n, x, y, e, f, g, h)
    ensures -4 <= a + b + c + d + e + f + g + h - 8 * DcPred(s, n, x, y) < 4
  {
    OverSum(s, n, x, y, a, b, c, d);
    LeftSum(s, n, x, y, e, f, g, h);
  }

  /** In the first column, the mean of the four above. */
  lemma MeanAbove(s: seq<int>, n: nat, y: nat, a: int, b: int, c: int, d: int)
    requires Over(s, n, 0, y, a, b, c, d)
    ensures -2 <= a + b + c + d - 4 * DcPred(s, n, 0, y) < 2
  {
    OverSum(s, n, 0, y, a, b, c, d);
  }

  /** In the first row, the mean of the four beside. */
  lemma MeanBeside(s: seq<int>, n: nat, x: nat, a: int, b: int, c: int, d: int)
    requires Left(s, n, x, 0, a, b, c, d)
    ensures -2 <= a + b + c + d - 4 * DcPred(s, n, x, 0) < 2
  {
    LeftSum(s, n, x, 0, a, b, c, d);
  }

  /** Without neighbours, the middle of the range. */
  lemma MeanOfNone(s: seq<int>, n: nat)
    requires Size(n) && |s| == Pos(n, n, 0)
    ensures DcPred(s, n, 0, 0) == 128
  {
  }

  /** Rows and columns exchanged. */
  ghost predicate Transposed(s: seq<int>, t: seq<int>, n: nat) {
    && Size(n) && |s| == |t| == Pos(n, n, 0)
    && forall row, col :: 0 <= row < n && 0 <= col < n ==> t[Pos(n, row, col)] == s[Pos(n, col, row)]
  }

  lemma TransposedBack(s: seq<int>, t: seq<int>, n: nat)
    requires Transposed(s, t, n)
    ensures Transposed(t, s, n)
  {
  }

  lemma {:induction false} AboveBeside(s: seq<int>, t: seq<int>, n: nat, x: nat, y: nat, k: nat)
    requires Transposed(s, t, n) && BlockAt(n, x, y) && y > 0 && k <= 4
    ensures Beside(t, n, y, x, k) == Above(s, n, x, y, k)
  {
    if k > 0 {
      AboveBeside(s, t, n, x, y, k - 1);
      assert t[Pos(n, x + k - 1, y - 1)] == s[Pos(n, y - 1, x + k - 1)];
    }
  }

  /** Neither side is preferred: in the transposed plane the prediction is the same. */
  lemma PredTransposed(s: seq<int>, t: seq<int>, n: nat, x: nat, y: nat)
    requires Transposed(s, t, n) && BlockAt(n, x, y)
    ensures DcPred(t, n, y, x) == DcPred(s, n, x, y)
  {
    TransposedBack(s, t, n);
    if y > 0 {
      AboveBeside(s, t, n, x, y, 4);
    }
    if x > 0 {
      AboveBeside(t, s, n, y, x, 4);
    }
  }
}
