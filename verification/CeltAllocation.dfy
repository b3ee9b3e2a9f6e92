// CELT's bit allocation (RFC 6716, section 4.3.3): eighths of a bit are divided
// over the bands, some of which are skipped, and between shape and fine energy.
// Not one eighth is lost or made.

module CeltAllocation {
  import opened Bits

  const BANDS := 21
  const ROWS := 11
  const STEPS := 6
  const MAX_FINE := 8
  const FINE_OFFSET := 21

  /** The tables, of which only the shape matters here. */
  datatype Tables = Tables(ebands: seq<nat>, alloc: seq<nat>, log2Frac: seq<nat>, logN: seq<nat>)

  ghost predicate ValidTables(t: Tables) {
    && |t.ebands| == BANDS + 1 && |t.logN| == BANDS
    && |t.alloc| == ROWS * BANDS && |t.log2Frac| > BANDS
    && (forall i, j :: 0 <= i < j <= BANDS ==> t.ebands[i] < t.ebands[j])
    && (forall j :: 0 <= j < BANDS ==> t.alloc[j] == 0)
    && (forall i, j :: 0 <= i <= j < |t.log2Frac| ==> t.log2Frac[i] <= t.log2Frac[j])
    && t.log2Frac[1] > 0
  }

  /** One call: the bands start..end, c channels, frames of 2^lm short blocks. */
  datatype Problem = Problem(t: Tables, start: nat, end: nat, c: nat, lm: nat, trim: int,
                             offsets: seq<nat>, cap: seq<nat>)

  ghost predicate Valid(p: Problem) {
    && ValidTables(p.t) && p.start < p.end <= BANDS && 1 <= p.c <= 2
    && |p.offsets| == BANDS && |p.cap| == BANDS
  }

  // ---- sums

  function Sum(s: seq<int>, i: nat, j: nat): int
    requires j <= |s|
    decreases j
  {
    if j <= i then 0 else Sum(s, i, j - 1) + s[j - 1]
  }

  lemma {:induction false} SumSame(s: seq<int>, t: seq<int>, i: nat, j: nat)
    requires j <= |s| && j <= |t| && forall k :: i <= k < j ==> s[k] == t[k]
    ensures Sum(s, i, j) == Sum(t, i, j)
    decreases j
  {
    if i < j {
      SumSame(s, t, i, j - 1);
    }
  }

  lemma {:induction false} SumSplit(s: seq<int>, i: nat, j: nat, k: nat)
    requires i <= j <= k <= |s|
    ensures Sum(s, i, k) == Sum(s, i, j) + Sum(s, j, k)
    decreases k
  {
    if j < k {
      SumSplit(s, i, j, k - 1);
    }
  }

  lemma SumUpdate(s: seq<int>, i: nat, j: nat, k: nat, x: int)
    requires i <= j < k <= |s|
    ensures Sum(s[j := x], i, k) == Sum(s, i, k) - s[j] + x
  {
    SumSplit(s, i, j, k);
    SumSplit(s, j, j + 1, k);
    var t := s[j := x];
    SumSplit(t, i, j, k);
    SumSplit(t, j, j + 1, k);
    SumSame(s, t, i, j);
    SumSame(s, t, j + 1, k);
    SumOne(s, j);
    SumOne(t, j);
  }

  lemma SumOne(s: seq<int>, j: nat)
    requires j < |s|
    ensures Sum(s, j, j + 1) == s[j]
  {
    assert Sum(s, j, j) == 0;
  }

  // ---- what a band asks for

  function Width(p: Problem, j: nat): nat
    requires |p.t.ebands| == BANDS + 1 && j < BANDS
  {
    if p.t.ebands[j + 1] > p.t.ebands[j] then p.t.ebands[j + 1] - p.t.ebands[j] else 0
  }

  function Floor(p: Problem): nat {
    8 * p.c
  }

  function Max(a: int, b: int): int {
    if a > b then a else b
  }

  function Min(a: int, b: int): int {
    if a < b then a else b
  }

  function Thresh(p: Problem, j: nat): int
    requires |p.t.ebands| == BANDS + 1 && j < BANDS
  {
    Max(Floor(p), Shl(3 * Width(p, j), p.lm) * 8 / 16)
  }

  function TrimOffset(p: Problem, j: nat): int
    requires |p.t.ebands| == BANDS + 1 && j < BANDS
  {
    p.c * Width(p, j) * (p.trim - 5 - p.lm) * (p.end - j - 1) * Shl(1, p.lm + 3) / 64
    - (if Shl(Width(p, j), p.lm) == 1 then Floor(p) else 0)
  }

  function RowBits(p: Problem, row: nat, j: nat): (r: nat)
    requires ValidTables(p.t) && row < ROWS && j < BANDS
  {
    var a := p.t.alloc[row * BANDS + j];
    MulNat(p.c, Width(p, j));
    MulNat(p.c * Width(p, j), a);
    ShlNat(p.c * Width(p, j) * a, p.lm);
    Shl(p.c * Width(p, j) * a, p.lm) / 4
  }

  lemma MulNat(a: nat, b: nat)
    ensures a * b >= 0
  {
  }

  function Trimmed(bits: int, offset: int): int {
    if bits > 0 then Max(0, bits + offset) else bits
  }

  /** What row `row` of the table gives every band. */
  function RowValues(p: Problem, row: nat): (v: seq<int>)
    requires Valid(p) && row < ROWS
    ensures |v| == BANDS && forall j :: 0 <= j < BANDS ==> v[j] >= 0
  {
    seq(BANDS, j requires 0 <= j < BANDS => Trimmed(RowBits(p, row, j), TrimOffset(p, j)) + p.offsets[j])
  }

  /** What the bands from j on take together, and whether one of them is full. */
  function Demand(p: Problem, v: seq<int>, j: nat): (int, bool)
    requires |p.t.ebands| == BANDS + 1 && p.end <= BANDS && |p.cap| == BANDS && |v| == BANDS && j <= p.end
    decreases p.end - j
  {
    if j == p.end then (0, false)
    else
      var (sum, full) := Demand(p, v, j + 1);
      if v[j] >= Thresh(p, j) || full then (sum + Min(v[j], p.cap[j]), true)
      else if v[j] >= Floor(p) then (sum + Floor(p), full)
      else (sum, full)
  }

  /** The sum one trial of a bisection comes to. */
  method Trial(p: Problem, v: seq<int>) returns (psum: int)
    requires Valid(p) && |v| == BANDS
    ensures psum == Demand(p, v, p.start).0
  {
    psum := 0;
    var full := false;
    for j := p.end downto p.start
      invariant (psum, full) == Demand(p, v, j)
    {
      if v[j] >= Thresh(p, j) || full {
        full := true;
        psum := psum + Min(v[j], p.cap[j]);
      } else if v[j] >= Floor(p) {
        psum := psum + Floor(p);
      }
    }
  }

  lemma {:induction false} NoDemand(p: Problem, v: seq<int>, j: nat)
    requires Valid(p) && |v| == BANDS && j <= p.end && forall k :: 0 <= k < BANDS ==> v[k] == 0
    ensures Demand(p, v, j) == (0, false)
    decreases p.end - j
  {
    if j < p.end {
      NoDemand(p, v, j + 1);
    }
  }

  /** The total lies between this row of the table and the next. */
  ghost predicate RowFound(p: Problem, row: nat, total: int)
    requires Valid(p)
  {
    row < ROWS && (row > 0 ==> RowDemand(p, row) <= total) && (row + 1 < ROWS ==> RowDemand(p, row + 1) > total)
  }

  function RowDemand(p: Problem, row: nat): int
    requires Valid(p) && row < ROWS
  {
    Demand(p, RowValues(p, row), p.start).0
  }

  /** The two table rows between which the total lies. */
  method PickRow(p: Problem, total: int) returns (lo: nat)
    requires Valid(p) && total >= 0
    ensures RowFound(p, lo, total)
  {
    var l, hi := 1, ROWS - 1;
    ghost var fits, over := 0, ROWS;
    while true
      invariant 1 <= l <= hi < ROWS && fits == l - 1 && over == hi + 1
      invariant fits > 0 ==> RowDemand(p, fits) <= total
      invariant over < ROWS ==> RowDemand(p, over) > total
      decreases hi - l
    {
      var mid := (l + hi) / 2;
      var psum := Trial(p, RowValues(p, mid));
      assert psum == RowDemand(p, mid);
      if psum > total {
        hi, over := mid - 1, mid;
      } else {
        l, fits := mid + 1, mid;
      }
      if l > hi {
        break;
      }
    }
    assert fits + 1 == l == over;
    lo := l - 1;
  }

  // ---- between the two rows

  function Mix(v: seq<int>, w: seq<int>, mid: nat): (r: seq<int>)
    requires |v| == |w|
    ensures |r| == |v|
  {
    seq(|v|, j requires 0 <= j < |v| => v[j] + mid * w[j] / 64)
  }

  /** The lower row, with offsets only when it is not row 0. */
  function Lower(p: Problem, lo: nat): (v: seq<int>)
    requires Valid(p) && lo < ROWS
    ensures |v| == BANDS
  {
    seq(BANDS, j requires 0 <= j < BANDS =>
      if p.start <= j < p.end then
        Trimmed(RowBits(p, lo, j), TrimOffset(p, j)) + (if lo > 0 then p.offsets[j] else 0)
      else 0)
  }

  /** How far the next row, or the cap, lies above it. */
  function Step(p: Problem, lo: nat): (v: seq<int>)
    requires Valid(p) && lo < ROWS
    ensures |v| == BANDS
  {
    seq(BANDS, j requires 0 <= j < BANDS =>
      if p.start <= j < p.end then
        Max(0, Trimmed(if lo + 1 >= ROWS then p.cap[j] else RowBits(p, lo + 1, j), TrimOffset(p, j)) + p.offsets[j]
               - Lower(p, lo)[j])
      else 0)
  }

  lemma LowerNat(p: Problem, lo: nat, j: nat)
    requires Valid(p) && lo < ROWS && j < BANDS
    ensures Lower(p, lo)[j] >= 0 && Step(p, lo)[j] >= 0
  {
  }

  lemma {:induction false} DemandSame(p: Problem, v: seq<int>, w: seq<int>, j: nat)
    requires Valid(p) && |v| == |w| == BANDS && j <= p.end && forall k :: j <= k < p.end ==> v[k] == w[k]
    ensures Demand(p, v, j) == Demand(p, w, j)
    decreases p.end - j
  {
    if j < p.end {
      DemandSame(p, v, w, j + 1);
    }
  }

  lemma RowZero(p: Problem, j: nat)
    requires Valid(p) && j < BANDS
    ensures RowBits(p, 0, j) == 0
  {
    ShlZero(p.lm);
  }

  /** The lower row alone never asks for more than there is. */
  lemma LowerFits(p: Problem, lo: nat, total: int)
    requires Valid(p) && lo < ROWS && total >= 0
    requires RowFound(p, lo, total)
    ensures Demand(p, Mix(Lower(p, lo), Step(p, lo), 0), p.start).0 <= total
  {
    var v := Mix(Lower(p, lo), Step(p, lo), 0);
    forall j | 0 <= j < BANDS
      ensures v[j] == Lower(p, lo)[j]
    {
      assert 0 * Step(p, lo)[j] / 64 == 0;
    }
    if lo == 0 {
      forall j | 0 <= j < BANDS
        ensures v[j] == 0
      {
        RowZero(p, j);
      }
      NoDemand(p, v, p.start);
    } else {
      DemandSame(p, v, RowValues(p, lo), p.start);
    }
  }

  ghost predicate StepFound(p: Problem, v: seq<int>, w: seq<int>, step: nat, total: int)
    requires Valid(p) && |v| == |w| == BANDS
  {
    && step < 64 && Demand(p, Mix(v, w, step), p.start).0 <= total
    && (step + 1 < 64 ==> Demand(p, Mix(v, w, step + 1), p.start).0 > total)
  }

  lemma Halved(gap: nat, n: nat)
    requires gap == Pow2(n) && n > 0
    ensures gap == gap / 2 + gap / 2 && gap / 2 == Pow2(n - 1) > 0
  {
    Pow2Pos(n - 1);
  }

  /** A step between the rows that fits, while the next one does not. */
  method Interpolate(p: Problem, v: seq<int>, w: seq<int>, total: int) returns (lo: nat)
    requires Valid(p) && |v| == |w| == BANDS && Demand(p, Mix(v, w, 0), p.start).0 <= total
    ensures StepFound(p, v, w, lo, total)
  {
    lo := 0;
    var hi := 64;
    ghost var n: nat := STEPS;
    for i := 0 to STEPS
      invariant lo < hi <= 64 && n == STEPS - i && hi - lo == Pow2(n)
      invariant Demand(p, Mix(v, w, lo), p.start).0 <= total
      invariant hi < 64 ==> Demand(p, Mix(v, w, hi), p.start).0 > total
    {
      Halved(hi - lo, n);
      n := n - 1;
      var mid := (lo + hi) / 2;
      var psum := Trial(p, Mix(v, w, mid));
      if psum > total {
        hi := mid;
      } else {
        lo := mid;
      }
    }
  }

  /** A band's first share: what it asks for if that, or a later band's, reaches the
      threshold; else the floor or nothing; and at most its cap. */
  function FirstShare(p: Problem, v: seq<int>, j: nat): int
    requires |p.t.ebands| == BANDS + 1 && j < p.end <= BANDS && |p.cap| == BANDS && |v| == BANDS
  {
    Min(if v[j] >= Thresh(p, j) || Demand(p, v, j + 1).1 then v[j] else if v[j] >= Floor(p) then Floor(p) else 0, p.cap[j])
  }

  function FirstShares(p: Problem, v: seq<int>): (bits: seq<int>)
    requires |p.t.ebands| == BANDS + 1 && p.end <= BANDS && |p.cap| == BANDS && |v| == BANDS
    ensures |bits| == BANDS
  {
    seq(BANDS, j requires 0 <= j < BANDS => if p.start <= j < p.end then FirstShare(p, v, j) else 0)
  }

  /** Gives every band its share, never more than the trial counted. */
  method Assign(p: Problem, v: seq<int>, bits: array<int>) returns (psum: int)
    requires Valid(p) && |v| == BANDS && bits.Length == BANDS && forall j :: 0 <= j < BANDS ==> v[j] >= 0
    modifies bits
    ensures psum == Sum(bits[..], p.start, p.end) <= Demand(p, v, p.start).0
    ensures forall j :: p.start <= j < p.end ==> 0 <= bits[j] <= p.cap[j] && bits[j] == FirstShare(p, v, j)
    ensures forall j :: 0 <= j < BANDS && !(p.start <= j < p.end) ==> bits[j] == old(bits[j])
  {
    psum := 0;
    var full := false;
    for j := p.end downto p.start
      invariant psum <= Demand(p, v, j).0 && full == Demand(p, v, j).1
      invariant psum == Sum(bits[..], j, p.end)
      invariant forall k :: j <= k < p.end ==> 0 <= bits[k] <= p.cap[k] && bits[k] == FirstShare(p, v, k)
      invariant forall k :: 0 <= k < BANDS && !(j <= k < p.end) ==> bits[k] == old(bits[k])
    {
      var tmp := v[j];
      if tmp < Thresh(p, j) && !full {
        tmp := if tmp >= Floor(p) then Floor(p) else 0;
      } else {
        full := true;
      }
      tmp := Min(tmp, p.cap[j]);
      ghost var was := bits[..];
      bits[j] := tmp;
      SumSame(was, bits[..], j + 1, p.end);
      SumSplit(bits[..], j, j + 1, p.end);
      SumOne(bits[..], j);
      psum := psum + tmp;
    }
  }

  // ---- skipping

  function Span(p: Problem, i: nat, j: nat): nat
    requires |p.t.ebands| == BANDS + 1 && i <= j <= BANDS
  {
    if p.t.ebands[j] > p.t.ebands[i] then p.t.ebands[j] - p.t.ebands[i] else 0
  }

  lemma SpanWidth(p: Problem, i: nat, j: nat)
    requires Valid(p) && i <= j < BANDS
    ensures Span(p, i, j + 1) == Span(p, i, j) + Width(p, j) && Width(p, j) > 0
    ensures Span(p, j, j + 1) == Width(p, j)
  {
    assert p.t.ebands[j] < p.t.ebands[j + 1];
    if i < j {
      assert p.t.ebands[i] < p.t.ebands[j];
    }
  }

  /** Dividing `left` over a width: the quotient and what remains. */
  method Divide(left: nat, width: nat) returns (percoeff: nat, rest: nat)
    requires width > 0
    ensures left == percoeff * width + rest && rest < width
    ensures percoeff == left / width && rest == left % width
  {
    percoeff := left / width;
    rest := left - width * percoeff;
  }

  /** A band's part of what is left is within what is left. */
  lemma PartOf(percoeff: nat, rest: nat, width: nat, band: nat, gap: nat)
    requires band <= width && rest < width
    ensures 0 <= percoeff * band + Max(rest - gap, 0) <= percoeff * width + rest
  {
    MulNat(percoeff, band);
    MulNat(percoeff, width - band);
    assert percoeff * width == percoeff * band + percoeff * (width - band);
  }

  /** The last band with an offset, which may not be skipped. */
  function SkipStart(p: Problem, j: nat): (r: nat)
    requires Valid(p) && p.start <= j <= p.end
    ensures p.start <= r < p.end
    decreases j
  {
    if j == p.start then p.start
    else if p.offsets[j - 1] > 0 then j - 1
    else SkipStart(p, j - 1)
  }

  /** What is known after some bands were skipped: `flags` of them at the cost of
      a coded bit. */
  ghost predicate Skipping(p: Problem, bits: seq<int>, coded: nat, psum: int, total: int, rsv: nat, rsv0: nat, flags: nat) {
    && Valid(p) && |bits| == BANDS && p.start < coded <= p.end
    && psum == Sum(bits, p.start, p.end) + 8 * flags + rsv - rsv0 && psum <= total
    && (forall j :: p.start <= j < p.end ==> bits[j] >= 0)
    && (forall j :: coded <= j < p.end ==> bits[j] == 0 || bits[j] == Floor(p))
    && rsv == (if rsv0 > 0 then p.t.log2Frac[coded - p.start] else 0)
  }

  /** What the last coded band would have with its part of what is left. */
  function Share(p: Problem, bits: seq<int>, coded: nat, left: nat): int
    requires Valid(p) && |bits| == BANDS && p.start < coded <= p.end
  {
    SpanWidth(p, p.start, coded - 1);
    var percoeff := left / Span(p, p.start, coded);
    bits[coded - 1] + percoeff * Width(p, coded - 1)
    + Max(left % Span(p, p.start, coded) - Span(p, p.start, coded - 1), 0)
  }

  /** Whether the decoder is asked about it: it could have its threshold, or a bit
      more than the floor. */
  predicate Affords(p: Problem, bits: seq<int>, coded: nat, left: nat)
    requires Valid(p) && |bits| == BANDS && p.start < coded <= p.end
  {
    Share(p, bits, coded, left) >= Max(Thresh(p, coded - 1), Floor(p) + 8)
  }

  /** What a dropped band keeps: the floor, if it has that after paying for the question. */
  function Kept(p: Problem, bits: seq<int>, coded: nat, left: nat): int
    requires Valid(p) && |bits| == BANDS && p.start < coded <= p.end
  {
    if Share(p, bits, coded, left) - (if Affords(p, bits, coded, left) then 8 else 0) >= Floor(p) then Floor(p) else 0
  }

  /** What is left after n questions. */
  function Left(p: Problem, bits: seq<int>, coded: nat, n: nat, total: int, rsv0: nat): nat
    requires Valid(p) && |bits| == BANDS && p.start < coded <= p.end
  {
    var rsv := if rsv0 > 0 then p.t.log2Frac[coded - p.start] else 0;
    Max(total - (Sum(bits, p.start, p.end) + 8 * n + rsv - rsv0), 0)
  }

  /** How many bands are coded in the end, of those that are now, after n questions. */
  function CodedBands(p: Problem, bits: seq<int>, coded: nat, n: nat, total: int, rsv0: nat, answers: seq<bool>, skipStart: nat): nat
    requires Valid(p) && |bits| == BANDS && p.start <= skipStart < coded <= p.end && n + coded <= |answers| + skipStart + 1
    decreases coded
  {
    if coded == skipStart + 1 then coded
    else
      var left := Left(p, bits, coded, n, total, rsv0);
      if Affords(p, bits, coded, left) && answers[n] then coded
      else
        CodedBands(p, bits[coded - 1 := Kept(p, bits, coded, left)], coded - 1,
                   if Affords(p, bits, coded, left) then n + 1 else n, total, rsv0, answers, skipStart)
  }

  /** How many of the questions were answered with a skip. */
  function Skips(asked: seq<bool>): nat {
    if asked == [] then 0 else Skips(asked[..|asked| - 1]) + (if asked[|asked| - 1] then 0 else 1)
  }

  /** The last question was answered with a stop. */
  predicate Stopped(asked: seq<bool>) {
    asked != [] && asked[|asked| - 1]
  }

  /** The questions put to the decoder, whose answers come in order; a yes is the
      last of them. Without one, all bands that may be skipped were. */
  ghost predicate Asked(p: Problem, asked: seq<bool>, answers: seq<bool>, skipStart: nat, coded: nat) {
    && asked <= answers && Skips(asked) <= p.end - coded && skipStart < coded
    && (forall i :: 0 <= i < |asked| - 1 ==> !asked[i])
    && (Stopped(asked) <==> coded > skipStart + 1)
  }

  lemma AskedOnce(answers: seq<bool>, n: nat)
    requires n < |answers|
    ensures Skips(answers[..n + 1]) == Skips(answers[..n]) + (if answers[n] then 0 else 1)
    ensures Stopped(answers[..n + 1]) == answers[n]
  {
    assert answers[..n + 1][..n] == answers[..n];
  }

  /** Drops bands from the end, each for a coded bit when it could have been kept. */
  method Skip(p: Problem, bits: array<int>, skipStart: nat, total0: int, psum0: int, skipRsv: nat, rsv0: nat, answers: seq<bool>)
    returns (coded: nat, total: int, psum: int, rsv: nat, asked: seq<bool>)
    requires Skipping(p, bits[..], p.end, psum0, total0, rsv0, rsv0, 0) && p.start <= skipStart < p.end && |answers| == BANDS
    modifies bits
    ensures Skipping(p, bits[..], coded, psum, total0, rsv, rsv0, Skips(asked)) && Asked(p, asked, answers, skipStart, coded)
    ensures total == total0 + (if Stopped(asked) then 0 else skipRsv)
    ensures coded == CodedBands(p, old(bits[..]), p.end, 0, total0, rsv0, answers, skipStart)
    ensures Agree(bits[..], old(bits[..]), coded)
  {
    coded, total, psum, rsv := p.end, total0, psum0, rsv0;
    var n: nat := 0;
    ghost var was := bits[..];
    ghost var goal := CodedBands(p, was, coded, n, total0, rsv0, answers, skipStart);
    var stop := false;
    while true
      invariant Underway(p, bits[..], coded, psum, total0, rsv, rsv0, n, answers, skipStart, goal, was)
      invariant total == total0 && !stop
      decreases coded
    {
      if coded - 1 <= skipStart {
        total := total + skipRsv;
        NoneLeft(p, bits[..], coded, psum, total0, rsv, rsv0, n, answers, skipStart, goal, was);
        break;
      }
      stop, coded, psum, rsv, n := SkipOne(p, bits, coded, psum, total, rsv, rsv0, n, answers, skipStart, goal, was);
      if stop {
        StopHere(p, bits[..], coded, psum, total0, rsv, rsv0, n - 1, answers, skipStart, goal, was);
        break;
      }
    }
    asked := answers[..n];
  }

  /** How the skipping ends, after these questions. */
  ghost predicate Over(p: Problem, bits: seq<int>, coded: nat, psum: int, total: int, rsv: nat, rsv0: nat, n: nat,
                       answers: seq<bool>, skipStart: nat, goal: nat, was: seq<int>, stop: bool)
  {
    && n <= |answers| && coded == goal && Agree(bits, was, coded)
    && Skipping(p, bits, coded, psum, total, rsv, rsv0, Skips(answers[..n])) && (Stopped(answers[..n]) <==> stop)
    && Asked(p, answers[..n], answers, skipStart, coded)
  }

  lemma StopHere(p: Problem, bits: seq<int>, coded: nat, psum: int, total: int, rsv: nat, rsv0: nat, n: nat,
                 answers: seq<bool>, skipStart: nat, goal: nat, was: seq<int>)
    requires Underway(p, bits, coded, psum, total, rsv, rsv0, n, answers, skipStart, goal, was) && coded > skipStart + 1
    requires coded == goal && n < BANDS && answers[n]
    ensures Over(p, bits, coded, psum, total, rsv, rsv0, n + 1, answers, skipStart, goal, was, true)
  {
    AskedStop(p, answers, n + 1, skipStart, coded);
  }

  /** After n questions, none of them answered with a stop. */
  ghost predicate Underway(p: Problem, bits: seq<int>, coded: nat, psum: int, total: int, rsv: nat, rsv0: nat, n: nat,
                           answers: seq<bool>, skipStart: nat, goal: nat, was: seq<int>)
  {
    && Agree(bits, was, coded)
    && Skipping(p, bits, coded, psum, total, rsv, rsv0, n)
    && p.start <= skipStart < coded && n <= p.end - coded && |answers| == BANDS && NoStop(answers, n)
    && CodedBands(p, bits, coded, n, total, rsv0, answers, skipStart) == goal
  }

  lemma NoneLeft(p: Problem, bits: seq<int>, coded: nat, psum: int, total: int, rsv: nat, rsv0: nat, n: nat,
                 answers: seq<bool>, skipStart: nat, goal: nat, was: seq<int>)
    requires Underway(p, bits, coded, psum, total, rsv, rsv0, n, answers, skipStart, goal, was) && coded == skipStart + 1
    ensures Over(p, bits, coded, psum, total, rsv, rsv0, n, answers, skipStart, goal, was, false)
  {
    AskedNone(p, answers, n, skipStart, coded);
  }

  /** Looks at the last coded band: the skipping stops there, or the band is dropped. */
  method SkipOne(p: Problem, bits: array<int>, coded0: nat, psum0: int, total: int, rsv1: nat, ghost rsv0: nat, n0: nat,
                 answers: seq<bool>, ghost skipStart: nat, ghost goal: nat, ghost first: seq<int>)
    returns (stop: bool, coded: nat, psum: int, rsv: nat, n: nat)
    requires Underway(p, bits[..], coded0, psum0, total, rsv1, rsv0, n0, answers, skipStart, goal, first) && skipStart < coded0 - 1
    modifies bits
    ensures stop ==> coded == coded0 == goal && n == n0 + 1 <= BANDS && answers[n0]
                     && Underway(p, bits[..], coded, psum, total, rsv, rsv0, n0, answers, skipStart, goal, first)
    ensures !stop ==> coded == coded0 - 1
                      && Underway(p, bits[..], coded, psum, total, rsv, rsv0, n, answers, skipStart, goal, first)
  {
    ghost var was := bits[..];
    CodedStep(p, was, coded0, psum0, total, rsv1, rsv0, n0, answers, skipStart);
    var bandBits, question := Weigh(p, bits[..], coded0, total - psum0);
    if question && answers[n0] {
      return true, coded0, psum0, rsv1, n0 + 1;
    }
    stop := false;
    coded, psum, rsv := Leave(p, bits, coded0, psum0, total, rsv1, rsv0, n0, bandBits, question);
    n := if question then n0 + 1 else n0;
    StillNone(answers, n0, n);
    Dropped(was, bits[..], first, coded, bits[coded]);
  }

  /** The first n values of both are the same. */
  ghost predicate Agree(a: seq<int>, b: seq<int>, n: nat) {
    n <= |a| && n <= |b| && forall j :: 0 <= j < n ==> a[j] == b[j]
  }

  lemma Dropped(was: seq<int>, bits: seq<int>, first: seq<int>, n: nat, x: int)
    requires n < |was| && bits == was[n := x] && Agree(was, first, n + 1)
    ensures Agree(bits, first, n)
  {
  }

  lemma StillNone(answers: seq<bool>, n0: nat, n: nat)
    requires NoStop(answers, n0) && n0 <= n <= n0 + 1 && (n > n0 ==> n0 < |answers| && !answers[n0])
    ensures NoStop(answers, n)
  {
  }

  lemma AskedNone(p: Problem, answers: seq<bool>, n: nat, skipStart: nat, coded: nat)
    requires NoStop(answers, n) && n <= p.end - coded && coded == skipStart + 1
    ensures Asked(p, answers[..n], answers, skipStart, coded) && Skips(answers[..n]) == n && !Stopped(answers[..n])
  {
    SkipsOf(answers, n);
  }

  lemma AskedStop(p: Problem, answers: seq<bool>, n: nat, skipStart: nat, coded: nat)
    requires 0 < n <= |answers| && NoStop(answers, n - 1) && answers[n - 1] && n - 1 <= p.end - coded && coded > skipStart + 1
    ensures Asked(p, answers[..n], answers, skipStart, coded) && Skips(answers[..n]) == n - 1 && Stopped(answers[..n])
  {
    SkipsOf(answers, n - 1);
    AskedOnce(answers, n - 1);
  }

  lemma {:induction false} SkipsOf(answers: seq<bool>, n: nat)
    requires NoStop(answers, n)
    ensures Skips(answers[..n]) == n && !Stopped(answers[..n])
  {
    if n > 0 {
      SkipsOf(answers, n - 1);
      AskedOnce(answers, n - 1);
    }
  }

  /** What the last coded band would have, and whether that is enough to ask. */
  ghost predicate Weighed(p: Problem, bits: seq<int>, coded: nat, left: nat, bandBits: int, question: bool)
    requires Valid(p) && |bits| == BANDS && p.start < coded <= p.end
  {
    && bandBits == Share(p, bits, coded, left) && question == Affords(p, bits, coded, left)
    && bits[coded - 1] <= bandBits <= bits[coded - 1] + left
  }

  method Weigh(p: Problem, bits: seq<int>, coded: nat, left: nat) returns (bandBits: int, question: bool)
    requires Valid(p) && |bits| == BANDS && p.start + 1 < coded <= p.end
    ensures Weighed(p, bits, coded, left, bandBits, question)
  {
    bandBits := Candidate(p, bits, coded, left);
    question := bandBits >= Max(Thresh(p, coded - 1), Floor(p) + 8);
  }

  ghost predicate NoStop(answers: seq<bool>, n: nat) {
    n <= |answers| && forall i :: 0 <= i < n ==> !answers[i]
  }

  /** Drops the last coded band. */
  method Leave(p: Problem, bits: array<int>, coded0: nat, psum0: int, total: int, rsv1: nat, ghost rsv0: nat, ghost n: nat,
               bandBits: int, question: bool)
    returns (coded: nat, psum: int, rsv: nat)
    requires Skipping(p, bits[..], coded0, psum0, total, rsv1, rsv0, n) && p.start + 1 < coded0
    requires Weighed(p, bits[..], coded0, total - psum0, bandBits, question)
    modifies bits
    ensures coded == coded0 - 1 && Skipping(p, bits[..], coded, psum, total, rsv, rsv0, if question then n + 1 else n)
    ensures bits[..] == old(bits[..])[coded := Kept(p, old(bits[..]), coded0, total - psum0)]
  {
    ghost var was := bits[..];
    var psum1, band, rsv2 := Drop(p, bits[coded0 - 1], bandBits, question, psum0, coded0 - 1, rsv1);
    DropKeeps(p, was, coded0, psum0, total, rsv1, rsv0, n, bandBits, question, psum1, band, rsv2);
    bits[coded0 - 1] := band;
    coded, psum, rsv := coded0 - 1, psum1, rsv2;
  }

  lemma CodedStep(p: Problem, bits: seq<int>, coded: nat, psum: int, total: int, rsv: nat, rsv0: nat, n: nat,
                  answers: seq<bool>, skipStart: nat)
    requires Skipping(p, bits, coded, psum, total, rsv, rsv0, n) && p.start <= skipStart < coded - 1
    requires n + coded <= |answers| + skipStart + 1
    ensures CodedBands(p, bits, coded, n, total, rsv0, answers, skipStart)
         == var asks := Affords(p, bits, coded, total - psum);
            if asks && answers[n] then coded
            else
              CodedBands(p, bits[coded - 1 := Kept(p, bits, coded, total - psum)], coded - 1, if asks then n + 1 else n,
                         total, rsv0, answers, skipStart)
  {
    assert Left(p, bits, coded, n, total, rsv0) == total - psum;
  }

  /** What the last coded band would have with its part of what is left. */
  method Candidate(p: Problem, bits: seq<int>, coded: nat, left0: int) returns (bandBits: int)
    requires Valid(p) && |bits| == BANDS && p.start + 1 < coded <= p.end && left0 >= 0
    ensures bits[coded - 1] <= bandBits <= bits[coded - 1] + left0
    ensures bandBits == Share(p, bits, coded, left0)
  {
    var j := coded - 1;
    SpanWidth(p, p.start, j);
    var percoeff, left := Divide(left0, Span(p, p.start, coded));
    var rem := Max(left - Span(p, p.start, j), 0);
    PartOf(percoeff, left, Span(p, p.start, coded), Width(p, j), Span(p, p.start, j));
    bandBits := bits[j] + percoeff * Width(p, j) + rem;
  }

  /** The books after a band is dropped. */
  method Drop(p: Problem, bits: int, bandBits0: int, asked: bool, psum0: int, j: nat, rsv0: nat)
    returns (psum: int, band: int, rsv: nat)
    requires Valid(p) && p.start < j < p.end
    ensures rsv == if rsv0 > 0 then p.t.log2Frac[j - p.start] else 0
    ensures band == if bandBits0 - (if asked then 8 else 0) >= Floor(p) then Floor(p) else 0
    ensures psum == psum0 - bits + band + (if asked then 8 else 0) + rsv - rsv0
  {
    psum, rsv := psum0, rsv0;
    var bandBits := bandBits0;
    if asked {
      psum := psum + 8;
      bandBits := bandBits - 8;
    }
    psum := psum - (bits + rsv);
    if rsv > 0 {
      rsv := p.t.log2Frac[j - p.start];
    }
    psum := psum + rsv;
    if bandBits >= Floor(p) {
      psum := psum + Floor(p);
      band := Floor(p);
    } else {
      band := 0;
    }
  }

  lemma DropKeeps(p: Problem, bits: seq<int>, coded: nat, psum: int, total: int, rsv: nat, rsv0: nat, flags: nat,
                  bandBits: int, asked: bool, psum1: int, band1: int, rsv1: nat)
    requires Skipping(p, bits, coded, psum, total, rsv, rsv0, flags) && p.start + 1 < coded
    requires bits[coded - 1] <= bandBits <= bits[coded - 1] + (total - psum)
    requires asked <==> bandBits >= Max(Thresh(p, coded - 1), Floor(p) + 8)
    requires rsv1 == if rsv > 0 then p.t.log2Frac[coded - 1 - p.start] else 0
    requires band1 == if bandBits - (if asked then 8 else 0) >= Floor(p) then Floor(p) else 0
    requires psum1 == psum - bits[coded - 1] + band1 + (if asked then 8 else 0) + rsv1 - rsv
    ensures Skipping(p, bits[coded - 1 := band1], coded - 1, psum1, total, rsv1, rsv0, flags + if asked then 1 else 0)
  {
    SumUpdate(bits, p.start, coded - 1, p.end, band1);
    assert p.t.log2Frac[coded - 1 - p.start] <= p.t.log2Frac[coded - p.start];
    assert p.t.log2Frac[1] <= p.t.log2Frac[coded - 1 - p.start];
  }

  // ---- spreading what is left over the coded bands

  /** What band j gets of what is left: its part by width, and of the remainder
      what the bands before it did not take. */
  function Dealt(p: Problem, coded: nat, left: nat, j: nat): nat
    requires Valid(p) && p.start <= j < coded <= p.end
  {
    SpanWidth(p, p.start, coded - 1);
    MulNat(left / Span(p, p.start, coded), Width(p, j));
    left / Span(p, p.start, coded) * Width(p, j) + Dole(p, left % Span(p, p.start, coded), j)
  }

  function Dole(p: Problem, rest: nat, j: nat): nat
    requires Valid(p) && p.start <= j < p.end
  {
    Min(Max(rest - Span(p, p.start, j), 0), Width(p, j))
  }

  /** The band that may be dropped is judged by what it would be dealt. */
  lemma ShareIsDealt(p: Problem, bits: seq<int>, coded: nat, left: nat)
    requires Valid(p) && |bits| == BANDS && p.start < coded <= p.end
    ensures Share(p, bits, coded, left) == bits[coded - 1] + Dealt(p, coded, left, coded - 1)
  {
    SpanWidth(p, p.start, coded - 1);
  }

  method Spread(p: Problem, bits: array<int>, coded: nat, left0: int)
    requires Valid(p) && bits.Length == BANDS && p.start < coded <= p.end && left0 >= 0
    modifies bits
    ensures Sum(bits[..], p.start, coded) == old(Sum(bits[..], p.start, coded)) + left0
    ensures forall j :: coded <= j < BANDS ==> bits[j] == old(bits[j])
    ensures forall j :: p.start <= j < coded ==> bits[j] == old(bits[j]) + Dealt(p, coded, left0, j)
  {
    SpanWidth(p, p.start, coded - 1);
    var percoeff, left := Divide(left0, Span(p, p.start, coded));
    SpreadEven(p, bits, coded, percoeff);
    SpreadRest(p, bits, coded, left);
  }

  lemma PartAdds(percoeff: nat, a: nat, b: nat)
    ensures percoeff * (a + b) == percoeff * a + percoeff * b && percoeff * b >= 0
  {
    MulNat(percoeff, b);
  }

  method SpreadEven(p: Problem, bits: array<int>, coded: nat, percoeff: nat)
    requires Valid(p) && bits.Length == BANDS && p.start < coded <= p.end
    modifies bits
    ensures Sum(bits[..], p.start, coded) == old(Sum(bits[..], p.start, coded)) + percoeff * Span(p, p.start, coded)
    ensures forall j :: coded <= j < BANDS ==> bits[j] == old(bits[j])
    ensures forall j :: p.start <= j < coded ==> bits[j] == old(bits[j]) + percoeff * Width(p, j)
  {
    ghost var was := bits[..];
    for j := p.start to coded
      invariant forall k :: j <= k < BANDS ==> bits[k] == was[k]
      invariant forall k :: p.start <= k < j ==> bits[k] == was[k] + percoeff * Width(p, k)
    {
      bits[j] := bits[j] + percoeff * Width(p, j);
    }
    EvenSum(p, was, bits[..], coded, percoeff);
  }

  lemma {:induction false} EvenSum(p: Problem, was: seq<int>, bits: seq<int>, j: nat, percoeff: nat)
    requires Valid(p) && |was| == |bits| == BANDS && p.start <= j <= p.end
    requires forall k :: p.start <= k < j ==> bits[k] == was[k] + percoeff * Width(p, k)
    ensures Sum(bits, p.start, j) == Sum(was, p.start, j) + percoeff * Span(p, p.start, j)
    decreases j
  {
    if j > p.start {
      EvenSum(p, was, bits, j - 1, percoeff);
      SpanWidth(p, p.start, j - 1);
      PartAdds(percoeff, Span(p, p.start, j - 1), Width(p, j - 1));
    }
  }

  lemma {:induction false} RestSum(p: Problem, was: seq<int>, bits: seq<int>, j: nat, rest: nat)
    requires Valid(p) && |was| == |bits| == BANDS && p.start <= j <= p.end
    requires forall k :: p.start <= k < j ==> bits[k] == was[k] + Dole(p, rest, k)
    ensures Sum(bits, p.start, j) == Sum(was, p.start, j) + rest - Max(rest - Span(p, p.start, j), 0)
    decreases j
  {
    if j > p.start {
      RestSum(p, was, bits, j - 1, rest);
      SpanWidth(p, p.start, j - 1);
    }
  }

  method SpreadRest(p: Problem, bits: array<int>, coded: nat, rest: nat)
    requires Valid(p) && bits.Length == BANDS && p.start < coded <= p.end && rest < Span(p, p.start, coded)
    modifies bits
    ensures Sum(bits[..], p.start, coded) == old(Sum(bits[..], p.start, coded)) + rest
    ensures forall j :: coded <= j < BANDS ==> bits[j] == old(bits[j])
    ensures forall j :: p.start <= j < coded ==> bits[j] == old(bits[j]) + Dole(p, rest, j)
  {
    ghost var was := bits[..];
    var left := rest;
    for j := p.start to coded
      invariant left == Max(rest - Span(p, p.start, j), 0)
      invariant forall k :: j <= k < BANDS ==> bits[k] == was[k]
      invariant forall k :: p.start <= k < j ==> bits[k] == was[k] + Dole(p, rest, k)
    {
      SpanWidth(p, p.start, j);
      var tmp := Min(left, Width(p, j));
      bits[j] := bits[j] + tmp;
      left := left - tmp;
    }
    RestSum(p, was, bits[..], coded, rest);
  }

  // ---- fine energy

  /** The eighths that e fine bits cost, one for each channel. */
  function Cost(p: Problem, e: int): int {
    if p.c == 1 then 8 * e else 16 * e
  }

  /** What the bands i..j hold, for shape and for fine energy. */
  function Spent(p: Problem, bits: seq<int>, ebits: seq<int>, i: nat, j: nat): int
    requires j <= |bits| && j <= |ebits|
    decreases j
  {
    if j <= i then 0 else Spent(p, bits, ebits, i, j - 1) + bits[j - 1] + Cost(p, ebits[j - 1])
  }

  lemma {:induction false} SpentSame(p: Problem, bits: seq<int>, ebits: seq<int>, bits': seq<int>, ebits': seq<int>, i: nat, j: nat)
    requires j <= |bits| && j <= |ebits| && j <= |bits'| && j <= |ebits'|
    requires forall k :: i <= k < j ==> bits[k] == bits'[k] && ebits[k] == ebits'[k]
    ensures Spent(p, bits, ebits, i, j) == Spent(p, bits', ebits', i, j)
    decreases j
  {
    if i < j {
      SpentSame(p, bits, ebits, bits', ebits', i, j - 1);
    }
  }

  function Blocks(p: Problem, j: nat): nat
    requires |p.t.ebands| == BANDS + 1 && j < BANDS
  {
    ShlNat(Width(p, j), p.lm);
    Shl(Width(p, j), p.lm)
  }

  // How much fine energy a band gets: its bits and an offset that depends on its
  // width, to the nearest fine bit of each degree of freedom.

  /** The degrees of freedom of a band: one for each line and channel, and one more
      where two channels are coded as one. */
  function Freedom(p: Problem, j: nat, dual: bool, intensity: nat): (den: nat)
    requires Valid(p) && j < BANDS
    ensures Blocks(p, j) > 1 ==> den > 0
  {
    var n := Blocks(p, j);
    DenNat(p.c, n);
    p.c * n + (if p.c == 2 && n > 2 && !dual && j < intensity then 1 else 0)
  }

  /** The offset in eighths: half the logarithm of the width less 21 for each degree
      of freedom, and more for pairs and where bits are few. */
  function FineOffset(p: Problem, j: nat, bits: int, dual: bool, intensity: nat): int
    requires Valid(p) && j < BANDS
  {
    var den := Freedom(p, j, dual, intensity);
    var width := den * (p.t.logN[j] + 8 * p.lm);
    var offset := width / 2 - 21 * den + (if Blocks(p, j) == 2 then 2 * den else 0);
    offset + (if bits + offset < 16 * den then width / 4 else if bits + offset < 24 * den then width / 8 else 0)
  }

  /** What is to be rounded. */
  function FineTarget(p: Problem, j: nat, bits: int, dual: bool, intensity: nat): int
    requires Valid(p) && j < BANDS
  {
    bits + FineOffset(p, j, bits, dual, intensity)
  }

  /** e fine bits of every degree of freedom, in eighths. */
  function Eighths(den: nat, e: int): int {
    e * (8 * den)
  }

  function Nearest(t: int, den: nat): nat
    requires den > 0
  {
    QuotientNat(Max(0, t + 4 * den), 8 * den);
    Max(0, t + 4 * den) / (8 * den)
  }

  lemma QuotientNat(x: nat, u: nat)
    requires u > 0
    ensures x / u >= 0 && (x / u) * u <= x < (x / u) * u + u
  {
  }

  /** That is the number of fine bits nearest to t, halves rounded up. */
  lemma NearestLaw(t: int, den: nat)
    requires den > 0
    ensures var e := Nearest(t, den); t < Eighths(den, e) + 4 * den && (e > 0 ==> Eighths(den, e) - 4 * den <= t)
  {
    QuotientNat(Max(0, t + 4 * den), 8 * den);
  }

  lemma {:induction false} EighthsMono(den: nat, e: int, f: int)
    requires e <= f
    ensures Eighths(den, e) <= Eighths(den, f)
    ensures e < f ==> Eighths(den, e) + 8 * den <= Eighths(den, f)
    decreases f - e
  {
    if e < f {
      EighthsMono(den, e, f - 1);
      assert f * (8 * den) == (f - 1) * (8 * den) + 8 * den;
    }
  }

  /** The fine bits of a band: the nearest number, within what it has and eight. */
  function FineBits(p: Problem, j: nat, bits: int, dual: bool, intensity: nat): int
    requires Valid(p) && j < BANDS && Blocks(p, j) > 1
  {
    Min(Min(Nearest(FineTarget(p, j, bits, dual, intensity), Freedom(p, j, dual, intensity)), bits / (8 * p.c)), MAX_FINE)
  }

  /** Have they been rounded up, so that they need no more? */
  function RoundedUp(p: Problem, j: nat, bits: int, dual: bool, intensity: nat): bool
    requires Valid(p) && j < BANDS && Blocks(p, j) > 1
  {
    Eighths(Freedom(p, j, dual, intensity), FineBits(p, j, bits, dual, intensity)) >= FineTarget(p, j, bits, dual, intensity)
  }

  /** The law of the fine bits. They are paid for; one more cannot be paid for, is
      more than eight, or is further from what is to be rounded; and so is one less. */
  lemma FineLaw(p: Problem, j: nat, bits: int, dual: bool, intensity: nat)
    requires Valid(p) && j < BANDS && Blocks(p, j) > 1 && bits >= 0
    ensures var e, den := FineBits(p, j, bits, dual, intensity), Freedom(p, j, dual, intensity);
      var t := FineTarget(p, j, bits, dual, intensity);
      && 0 <= e <= MAX_FINE && Cost(p, e) <= bits
      && (e > 0 ==> Eighths(den, e) - 4 * den <= t)
      && (e < MAX_FINE && Cost(p, e + 1) <= bits ==> t < Eighths(den, e) + 4 * den)
  {
    var den, t := Freedom(p, j, dual, intensity), FineTarget(p, j, bits, dual, intensity);
    var r, e := Nearest(t, den), FineBits(p, j, bits, dual, intensity);
    NearestLaw(t, den);
    EighthsMono(den, e, r);
    CostFits(p, e, bits);
    CostFits(p, e + 1, bits);
  }

  lemma CostFits(p: Problem, e: int, bits: int)
    requires 1 <= p.c <= 2
    ensures Cost(p, e) <= bits <==> e <= bits / (8 * p.c)
  {
  }

  /** So unless it is cut off, the rounding is off by half a fine bit at most. */
  lemma FineClose(p: Problem, j: nat, bits: int, dual: bool, intensity: nat)
    requires Valid(p) && j < BANDS && Blocks(p, j) > 1 && bits >= 0
    requires var e := FineBits(p, j, bits, dual, intensity); 0 < e < MAX_FINE && Cost(p, e + 1) <= bits
    ensures var e, den := FineBits(p, j, bits, dual, intensity), Freedom(p, j, dual, intensity);
      -4 * den <= Eighths(den, e) - FineTarget(p, j, bits, dual, intensity) <= 4 * den
  {
    FineLaw(p, j, bits, dual, intensity);
  }

  /** What becomes of a band: its shape, its fine bits, whether they come first no
      more, and what is passed on. */
  datatype Split = Split(b: int, e: int, prio: bool, balance: int)

  /** The most eighths a band keeps for itself. */
  function Most(p: Problem, j: nat): int
    requires Valid(p) && j < BANDS
  {
    if Blocks(p, j) > 1 then p.cap[j] else Floor(p)
  }

  /** What is above that buys further fine bits, whole ones, up to eight; the rest is
      passed on. They come first no more if that uses up what the band itself brought. */
  function Finer(p: Problem, s: Split, excess: int, balance0: int): Split {
    var extra := Min(excess / (8 * Max(p.c, 1)), MAX_FINE - s.e);
    if excess <= 0 then s
    else Split(s.b, s.e + extra, Cost(p, extra) >= excess - balance0, excess - Cost(p, extra))
  }

  function FineSplit(p: Problem, j: nat, bit: int, balance0: int, dual: bool, intensity: nat): Split
    requires Valid(p) && j < BANDS
  {
    var excess := Max(bit - Most(p, j), 0);
    var own := bit - excess;
    var s := if Blocks(p, j) > 1 then
               var e := FineBits(p, j, own, dual, intensity);
               Split(own - Cost(p, e), e, RoundedUp(p, j, own, dual, intensity), 0)
             else Split(own, 0, true, 0);
    Finer(p, s, excess, balance0)
  }

  /** Nothing is lost or made, and nothing exceeds its bound. */
  lemma SplitLaw(p: Problem, j: nat, bit: int, balance0: int, dual: bool, intensity: nat)
    requires Valid(p) && j < BANDS && bit >= 0 && balance0 >= 0
    ensures var s := FineSplit(p, j, bit, balance0, dual, intensity);
      && s.b + Cost(p, s.e) + s.balance == bit && 0 <= s.b <= Most(p, j) && s.balance >= 0 && 0 <= s.e <= MAX_FINE
      && (s.balance >= 8 * p.c ==> s.e == MAX_FINE)
  {
    var excess := Max(bit - Most(p, j), 0);
    if Blocks(p, j) > 1 {
      FineLaw(p, j, bit - excess, dual, intensity);
    }
    ExtraLaw(p, excess, MAX_FINE - (if Blocks(p, j) > 1 then FineBits(p, j, bit - excess, dual, intensity) else 0));
  }

  lemma ExtraLaw(p: Problem, excess: int, room: int)
    requires 1 <= p.c <= 2 && excess >= 0 && room >= 0
    ensures var x := Min(excess / (8 * p.c), room);
      0 <= x && Cost(p, x) <= excess && (excess - Cost(p, x) >= 8 * p.c ==> x == room)
  {
  }

  /** Splits what a band has into shape, fine energy, and what the next takes over. */
  method FineBand(p: Problem, j: nat, bit: int, balance0: int, dual: bool, intensity: nat)
    returns (b: int, e: int, prio: bool, balance: int)
    requires Valid(p) && j < BANDS && bit >= 0 && balance0 >= 0
    ensures Split(b, e, prio, balance) == FineSplit(p, j, bit, balance0, dual, intensity)
    ensures b + Cost(p, e) + balance == bit && b >= 0 && balance >= 0 && 0 <= e <= MAX_FINE
    ensures b <= if Blocks(p, j) > 1 then p.cap[j] else Floor(p)
  {
    var n := Blocks(p, j);
    var excess;
    if n > 1 {
      excess := Max(bit - p.cap[j], 0);
      b := bit - excess;
      b, e, prio := Energy(p, j, n, b, dual, intensity);
    } else {
      excess := Max(0, bit - Floor(p));
      b := bit - excess;
      e := 0;
      prio := true;
    }
    BandIs(p, j, bit, balance0, dual, intensity, excess, b, e, prio);
    e, prio, balance := Further(p, Split(b, e, prio, 0), excess, balance0);
    SplitLaw(p, j, bit, balance0, dual, intensity);
  }

  /** Further fine bits for what is above the most a band keeps. */
  method Further(p: Problem, s: Split, excess0: int, balance0: int) returns (e: int, prio: bool, balance: int)
    requires 1 <= p.c <= 2 && excess0 >= 0 && s.balance == 0
    ensures Split(s.b, e, prio, balance) == Finer(p, s, excess0, balance0)
  {
    var excess := excess0;
    e, prio := s.e, s.prio;
    ExtraIs(p, excess);
    if excess > 0 {
      var extraFine := Min(if p.c > 1 then excess / 16 else excess / 8, MAX_FINE - e);
      e := e + extraFine;
      var extraBits := Cost(p, extraFine);
      prio := extraBits >= excess - balance0;
      excess := excess - extraBits;
    }
    balance := excess;
  }

  lemma BandIs(p: Problem, j: nat, bit: int, balance0: int, dual: bool, intensity: nat, excess: int, b: int, e: int, prio: bool)
    requires Valid(p) && j < BANDS && bit >= 0 && excess == Max(bit - Most(p, j), 0)
    requires Blocks(p, j) > 1 ==> e == FineBits(p, j, bit - excess, dual, intensity) && b == bit - excess - Cost(p, e)
    requires Blocks(p, j) > 1 ==> prio == RoundedUp(p, j, bit - excess, dual, intensity)
    requires Blocks(p, j) <= 1 ==> e == 0 && prio && b == bit - excess
    ensures FineSplit(p, j, bit, balance0, dual, intensity) == Finer(p, Split(b, e, prio, 0), excess, balance0)
  {
  }

  lemma ExtraIs(p: Problem, excess: int)
    requires 1 <= p.c <= 2
    ensures (if p.c > 1 then excess / 16 else excess / 8) == excess / (8 * Max(p.c, 1))
  {
  }

  /** How many of a band's eighths go to fine energy. */
  method Energy(p: Problem, j: nat, n: nat, bits: int, dual: bool, intensity: nat) returns (b: int, e: int, prio: bool)
    requires Valid(p) && j < BANDS && n == Blocks(p, j) > 1 && bits >= 0
    ensures e == FineBits(p, j, bits, dual, intensity) && b + Cost(p, e) == bits
    ensures prio == RoundedUp(p, j, bits, dual, intensity)
  {
    var den := p.c * n + (if p.c == 2 && n > 2 && !dual && j < intensity then 1 else 0);
    DenPositive(p.c, n);
    var offset := OffsetOf(p, j, n, bits, den, dual, intensity);
    ghost var t := bits + offset;
    e := Eighth(Max(0, bits + offset + den * 4), den);
    EighthNearest(t, den);
    CutOff(p, e, bits);
    if (if p.c == 1 then e else 2 * e) > bits / 8 {
      e := if p.c > 1 then bits / 2 / 8 else bits / 8;
    }
    assert e == Min(Nearest(t, den), bits / (8 * p.c));
    e := Min(e, MAX_FINE);
    FineIs(p, j, bits, dual, intensity, t, den, e);
    prio := e * (den * 8) >= bits + offset;
    b := bits - Cost(p, e);
  }

  lemma FineIs(p: Problem, j: nat, bits: int, dual: bool, intensity: nat, t: int, den: nat, e: int)
    requires Valid(p) && j < BANDS && Blocks(p, j) > 1 && den == Freedom(p, j, dual, intensity)
    requires t == FineTarget(p, j, bits, dual, intensity) && e == Min(Min(Nearest(t, den), bits / (8 * p.c)), MAX_FINE)
    ensures e == FineBits(p, j, bits, dual, intensity)
    ensures RoundedUp(p, j, bits, dual, intensity) == (e * (den * 8) >= t)
  {
    assert den * 8 == 8 * den;
  }

  /** The offset, step by step. */
  method OffsetOf(p: Problem, j: nat, n: nat, bits: int, den: nat, dual: bool, intensity: nat) returns (offset: int)
    requires Valid(p) && j < BANDS && n == Blocks(p, j) && den == Freedom(p, j, dual, intensity)
    ensures bits + offset == FineTarget(p, j, bits, dual, intensity)
  {
    var nclogN := den * (p.t.logN[j] + 8 * p.lm);
    offset := nclogN / 2 - den * FINE_OFFSET;
    if n == 2 {
      offset := offset + den * 8 / 4;
    }
    OffsetIs(p, j, bits, dual, intensity, den, nclogN, offset);
    if bits + offset < den * 16 {
      offset := offset + nclogN / 4;
    } else if bits + offset < den * 24 {
      offset := offset + nclogN / 8;
    }
  }

  lemma OffsetIs(p: Problem, j: nat, bits: int, dual: bool, intensity: nat, den: nat, width: int, offset: int)
    requires Valid(p) && j < BANDS && den == Freedom(p, j, dual, intensity) && width == den * (p.t.logN[j] + 8 * p.lm)
    requires offset == width / 2 - den * FINE_OFFSET + (if Blocks(p, j) == 2 then den * 8 / 4 else 0)
    ensures FineOffset(p, j, bits, dual, intensity)
         == offset + (if bits + offset < den * 16 then width / 4 else if bits + offset < den * 24 then width / 8 else 0)
  {
  }

  lemma CutOff(p: Problem, e: int, bits: int)
    requires 1 <= p.c <= 2 && bits >= 0
    ensures (if (if p.c == 1 then e else 2 * e) > bits / 8 then (if p.c > 1 then bits / 2 / 8 else bits / 8) else e)
         == Min(e, bits / (8 * p.c))
  {
  }

  function Eighth(x: nat, den: nat): nat
    requires den > 0
  {
    x / den / 8
  }

  lemma EighthNearest(t: int, den: nat)
    requires den > 0
    ensures Eighth(Max(0, t + den * 4), den) == Nearest(t, den)
  {
    var x := Max(0, t + 4 * den);
    DivideTwice(x, den);
  }

  lemma DivideTwice(x: nat, den: nat)
    requires den > 0
    ensures x / den / 8 == x / (8 * den)
  {
    var q := x / den;
    QuotientNat(x, den);
    QuotientNat(q, 8);
    EightParts(x, den, q, q / 8, q - q / 8 * 8);
  }

  lemma EightParts(x: nat, den: nat, q: nat, e: nat, s: nat)
    requires den > 0 && q * den <= x < q * den + den && q == 8 * e + s && s < 8
    ensures x / (8 * den) == e
  {
    MulNat(s, den);
    MulNat(7 - s, den);
    assert q * den == e * (8 * den) + s * den && s * den + (7 - s) * den == 7 * den;
    QuotientIs(x, 8 * den, e, s * den + (x - q * den));
  }

  lemma QuotientIs(x: nat, u: nat, e: nat, r: nat)
    requires u > 0 && x == e * u + r && r < u
    ensures x / u == e
  {
    var d := x / u;
    QuotientNat(x, u);
    if d < e {
      TimesLess(d, e, u);
    } else if e < d {
      TimesLess(e, d, u);
    }
  }

  lemma TimesLess(a: nat, b: nat, u: nat)
    requires a < b
    ensures a * u + u <= b * u
  {
    MulNat(b - a - 1, u);
    assert b * u == a * u + u + (b - a - 1) * u;
  }

  lemma DenPositive(c: nat, n: nat)
    requires c >= 1 && n >= 1
    ensures c * n >= 1
  {
    MulNat(c - 1, n);
    assert c * n == (c - 1) * n + n;
  }

  lemma DenNat(c: nat, n: nat)
    requires c >= 1
    ensures c * n >= 0 && (n >= 1 ==> c * n >= 1)
  {
    MulNat(c, n);
    if n >= 1 {
      DenPositive(c, n);
    }
  }

  /** What band j takes over from those before it. */
  function Balance(p: Problem, shares: seq<int>, dual: bool, intensity: nat, j: nat): int
    requires Valid(p) && |shares| == BANDS && p.start <= j <= p.end
    decreases j, 0
  {
    if j == p.start then 0 else Settled(p, shares, dual, intensity, j - 1).balance
  }

  /** The split of band j, given what every band had. */
  function Settled(p: Problem, shares: seq<int>, dual: bool, intensity: nat, j: nat): Split
    requires Valid(p) && |shares| == BANDS && p.start <= j < p.end
    decreases j, 1
  {
    FineSplit(p, j, shares[j] + Balance(p, shares, dual, intensity, j), Balance(p, shares, dual, intensity, j), dual, intensity)
  }

  /** Every coded band before j is split so. */
  ghost predicate FineTo(p: Problem, shares: seq<int>, dual: bool, intensity: nat, bits: seq<int>, ebits: seq<int>,
                         prio: seq<bool>, j: nat)
    requires Valid(p) && |shares| == BANDS && j <= p.end
  {
    && |bits| == |ebits| == |prio| == BANDS
    && forall k :: p.start <= k < j ==>
         var s := Settled(p, shares, dual, intensity, k); bits[k] == s.b && ebits[k] == s.e && prio[k] == s.prio
  }

  /** A skipped band's share is all fine energy; it comes first if there is none. */
  ghost predicate SkippedTo(p: Problem, shares: seq<int>, bits: seq<int>, ebits: seq<int>, prio: seq<bool>, coded: nat, j: nat)
    requires Valid(p) && |shares| == BANDS && j <= p.end
  {
    && |bits| == |ebits| == |prio| == BANDS
    && forall k :: coded <= k < j ==> bits[k] == 0 && Cost(p, ebits[k]) == shares[k] && (prio[k] <==> shares[k] == 0)
  }

  /** What holds of every band's split, up to band j. */
  ghost predicate SplitTo(p: Problem, bits: seq<int>, ebits: seq<int>, coded: nat, j: nat)
    requires Valid(p)
  {
    && |bits| == |ebits| == BANDS && p.start < coded <= p.end
    && (forall k :: p.start <= k < j && k < p.end ==> bits[k] >= 0 && 0 <= ebits[k] <= MAX_FINE)
    && (forall k :: p.start <= k < j && k < coded ==> bits[k] <= if Blocks(p, k) > 1 then p.cap[k] else Floor(p))
    && (forall k :: coded <= k < j && k < p.end ==> bits[k] == 0 && ebits[k] <= 1)
  }

  lemma FineNext(p: Problem, shares: seq<int>, dual: bool, intensity: nat, bits: seq<int>, ebits: seq<int>, prio: seq<bool>,
                 j: nat, bits': seq<int>, ebits': seq<int>, prio': seq<bool>, s: Split, bit: int, balance: int)
    requires Valid(p) && |shares| == BANDS && p.start <= j < p.end
    requires FineTo(p, shares, dual, intensity, bits, ebits, prio, j)
    requires balance == Balance(p, shares, dual, intensity, j) && bit == shares[j] + balance
    requires s == FineSplit(p, j, bit, balance, dual, intensity)
    requires bits' == bits[j := s.b] && ebits' == ebits[j := s.e] && prio' == prio[j := s.prio]
    ensures FineTo(p, shares, dual, intensity, bits', ebits', prio', j + 1)
    ensures s.balance == Balance(p, shares, dual, intensity, j + 1)
  {
    SettledIs(p, shares, dual, intensity, j, s, bit, balance);
    forall k | p.start <= k < j + 1
      ensures var t := Settled(p, shares, dual, intensity, k); bits'[k] == t.b && ebits'[k] == t.e && prio'[k] == t.prio
    {
    }
  }

  lemma SettledIs(p: Problem, shares: seq<int>, dual: bool, intensity: nat, j: nat, s: Split, bit: int, balance: int)
    requires Valid(p) && |shares| == BANDS && p.start <= j < p.end
    requires balance == Balance(p, shares, dual, intensity, j) && bit == shares[j] + balance
    requires s == FineSplit(p, j, bit, balance, dual, intensity)
    ensures Settled(p, shares, dual, intensity, j) == s
  {
  }

  method FinishCoded(p: Problem, bits: array<int>, ebits: array<int>, prio: array<bool>, coded: nat, dual: bool, intensity: nat)
    returns (balance: int)
    requires Valid(p) && bits.Length == ebits.Length == prio.Length == BANDS && bits != ebits
    requires p.start < coded <= p.end && forall j :: p.start <= j < coded ==> bits[j] >= 0
    modifies bits, ebits, prio
    ensures Spent(p, bits[..], ebits[..], p.start, coded) + balance == old(Sum(bits[..], p.start, coded)) && balance >= 0
    ensures SplitTo(p, bits[..], ebits[..], coded, coded)
    ensures forall j :: coded <= j < BANDS ==> bits[j] == old(bits[j])
    ensures FineTo(p, old(bits[..]), dual, intensity, bits[..], ebits[..], prio[..], coded)
    ensures balance == Balance(p, old(bits[..]), dual, intensity, coded)
  {
    ghost var was := bits[..];
    balance := 0;
    for j := p.start to coded
      invariant CodedTo(p, was, dual, intensity, coded, bits[..], ebits[..], prio[..], j, balance)
    {
      ghost var now, enow, pnow, carried := bits[..], ebits[..], prio[..], balance;
      var bit := bits[j] + balance;
      assert bits[j] == was[j] && balance >= 0;
      var b, e, pr, rest := FineBand(p, j, bit, balance, dual, intensity);
      bits[j], ebits[j], prio[j], balance := b, e, pr, rest;
      assert bits[..] == now[j := b] && ebits[..] == enow[j := e] && prio[..] == pnow[j := pr];
      CodedNext(p, was, dual, intensity, coded, now, enow, pnow, j, carried, bit, Split(b, e, pr, rest),
                bits[..], ebits[..], prio[..]);
    }
  }

  /** The coded bands before j are split, those from there on have what they had, and
      the balance is what is left over so far. */
  ghost predicate CodedTo(p: Problem, was: seq<int>, dual: bool, intensity: nat, coded: nat, bits: seq<int>, ebits: seq<int>,
                          prio: seq<bool>, j: nat, balance: int)
    requires Valid(p)
  {
    && |was| == |bits| == |ebits| == |prio| == BANDS && p.start <= j <= coded <= p.end
    && Spent(p, bits, ebits, p.start, j) + balance == Sum(was, p.start, j) && balance >= 0
    && (forall k :: j <= k < BANDS ==> bits[k] == was[k])
    && SplitTo(p, bits, ebits, coded, j)
    && FineTo(p, was, dual, intensity, bits, ebits, prio, j)
    && balance == Balance(p, was, dual, intensity, j)
  }

  lemma CodedNext(p: Problem, was: seq<int>, dual: bool, intensity: nat, coded: nat, bits: seq<int>, ebits: seq<int>,
                  prio: seq<bool>, j: nat, balance: int, bit: int, s: Split, bits': seq<int>, ebits': seq<int>, prio': seq<bool>)
    requires Valid(p) && j < coded && CodedTo(p, was, dual, intensity, coded, bits, ebits, prio, j, balance)
    requires bit == was[j] + balance && bit >= 0 && s == FineSplit(p, j, bit, balance, dual, intensity)
    requires bits' == bits[j := s.b] && ebits' == ebits[j := s.e] && prio' == prio[j := s.prio]
    ensures CodedTo(p, was, dual, intensity, coded, bits', ebits', prio', j + 1, s.balance)
  {
    SplitLaw(p, j, bit, balance, dual, intensity);
    SpentSame(p, bits, ebits, bits', ebits', p.start, j);
    FineNext(p, was, dual, intensity, bits, ebits, prio, j, bits', ebits', prio', s, bit, balance);
    SplitNext(p, bits, ebits, coded, j, s);
  }

  lemma SplitNext(p: Problem, bits: seq<int>, ebits: seq<int>, coded: nat, j: nat, s: Split)
    requires Valid(p) && SplitTo(p, bits, ebits, coded, j) && p.start <= j < coded
    requires 0 <= s.b <= Most(p, j) && 0 <= s.e <= MAX_FINE
    ensures SplitTo(p, bits[j := s.b], ebits[j := s.e], coded, j + 1)
  {
  }

  lemma WholeCost(p: Problem, b: int)
    requires 1 <= p.c <= 2 && (b == 0 || b == Floor(p))
    ensures var e := if p.c > 1 then b / 2 / 8 else b / 8; Cost(p, e) == b && 0 <= e <= 1 && (e == 0 <==> b == 0)
  {
  }

  lemma SkippedOne(p: Problem, bits: seq<int>, ebits: seq<int>, coded: nat, j: nat, e: int)
    requires Valid(p) && SplitTo(p, bits, ebits, coded, j) && coded <= j < p.end && 0 <= e <= 1
    ensures SplitTo(p, bits[j := 0], ebits[j := e], coded, j + 1)
    ensures Spent(p, bits[j := 0], ebits[j := e], p.start, j + 1) == Spent(p, bits, ebits, p.start, j) + Cost(p, e)
  {
    SpentSame(p, bits, ebits, bits[j := 0], ebits[j := e], p.start, j);
  }

  /** A skipped band has at most one fine bit a channel. */
  method FinishSkipped(p: Problem, bits: array<int>, ebits: array<int>, prio: array<bool>, coded: nat)
    requires Valid(p) && bits.Length == ebits.Length == prio.Length == BANDS && bits != ebits
    requires SplitTo(p, bits[..], ebits[..], coded, coded)
    requires forall j :: coded <= j < p.end ==> bits[j] == 0 || bits[j] == Floor(p)
    modifies bits, ebits, prio
    ensures Spent(p, bits[..], ebits[..], p.start, p.end)
         == old(Spent(p, bits[..], ebits[..], p.start, coded)) + old(Sum(bits[..], coded, p.end))
    ensures SplitTo(p, bits[..], ebits[..], coded, p.end)
    ensures SkippedTo(p, old(bits[..]), bits[..], ebits[..], prio[..], coded, p.end)
    ensures bits[..coded] == old(bits[..coded]) && ebits[..coded] == old(ebits[..coded]) && prio[..coded] == old(prio[..coded])
  {
    ghost var was, ewas, pwas := bits[..], ebits[..], prio[..];
    for j := coded to p.end
      invariant SkipsTo(p, was, ewas, pwas, coded, bits[..], ebits[..], prio[..], j)
    {
      ghost var now, enow, pnow := bits[..], ebits[..], prio[..];
      assert bits[j] == was[j];
      WholeCost(p, bits[j]);
      ebits[j] := if p.c > 1 then bits[j] / 2 / 8 else bits[j] / 8;
      bits[j] := 0;
      prio[j] := ebits[j] < 1;
      assert bits[..] == now[j := 0] && ebits[..] == enow[j := ebits[j]] && prio[..] == pnow[j := prio[j]];
      SkipsNext(p, was, ewas, pwas, coded, now, enow, pnow, j, ebits[j], bits[..], ebits[..], prio[..]);
    }
  }

  /** The skipped bands before j are settled, and all others have what they had. */
  ghost predicate SkipsTo(p: Problem, was: seq<int>, ewas: seq<int>, pwas: seq<bool>, coded: nat, bits: seq<int>,
                          ebits: seq<int>, prio: seq<bool>, j: nat)
    requires Valid(p)
  {
    && |was| == |ewas| == |pwas| == |bits| == |ebits| == |prio| == BANDS && p.start < coded <= j <= p.end
    && Spent(p, bits, ebits, p.start, j) == Spent(p, was, ewas, p.start, coded) + Sum(was, coded, j)
    && (forall k :: j <= k < BANDS ==> bits[k] == was[k])
    && bits[..coded] == was[..coded] && ebits[..coded] == ewas[..coded] && prio[..coded] == pwas[..coded]
    && SplitTo(p, bits, ebits, coded, j) && SkippedTo(p, was, bits, ebits, prio, coded, j)
  }

  lemma SkipsNext(p: Problem, was: seq<int>, ewas: seq<int>, pwas: seq<bool>, coded: nat, bits: seq<int>, ebits: seq<int>,
                  prio: seq<bool>, j: nat, e: int, bits': seq<int>, ebits': seq<int>, prio': seq<bool>)
    requires Valid(p) && j < p.end && SkipsTo(p, was, ewas, pwas, coded, bits, ebits, prio, j)
    requires 0 <= e <= 1 && Cost(p, e) == was[j] && (e == 0 <==> was[j] == 0)
    requires bits' == bits[j := 0] && ebits' == ebits[j := e] && prio' == prio[j := e < 1]
    ensures SkipsTo(p, was, ewas, pwas, coded, bits', ebits', prio', j + 1)
  {
    SkippedOne(p, bits, ebits, coded, j, e);
    assert bits'[..coded] == bits[..coded] && ebits'[..coded] == ebits[..coded] && prio'[..coded] == prio[..coded];
  }

  // ---- the whole

  datatype Allocation = Allocation(coded: nat, balance: int, intensity: nat, dual: bool,
                                   bits: seq<int>, ebits: seq<int>, prio: seq<bool>)

  /** What the coded symbols themselves cost: a bit for every band skipped by a
      flag, the flag that stops the skipping, the intensity and the stereo mode. */
  datatype Symbols = Symbols(flags: nat, stop: nat, intensity: nat, dual: nat)

  function Paid(s: Symbols): nat {
    8 * s.flags + s.stop + s.intensity + s.dual
  }

  /** What is set aside for the flag that stops the skipping. */
  function SkipReserve(total: int): nat {
    if total >= 8 then 8 else 0
  }

  /** What is set aside for the intensity, of the rest. */
  function IntensityReserve(p: Problem, total: int): nat
    requires Valid(p)
  {
    var r := p.t.log2Frac[p.end - p.start];
    if p.c == 2 && r <= Max(total, 0) - SkipReserve(total) then r else 0
  }

  /** What is set aside for the stereo mode, of the rest. */
  function DualReserve(p: Problem, total: int): nat
    requires Valid(p)
  {
    var r := IntensityReserve(p, total);
    if p.c == 2 && r > 0 && Max(total, 0) - SkipReserve(total) - r >= 8 then 8 else 0
  }

  /** What is there for the bands. */
  function Unreserved(p: Problem, total: int): int
    requires Valid(p)
  {
    Max(total, 0) - SkipReserve(total) - IntensityReserve(p, total) - DualReserve(p, total)
  }

  /** Which symbols were paid for, by the questions asked and what was coded. */
  ghost predicate Charged(p: Problem, a: Allocation, s: Symbols, asked: seq<bool>, skipRsv: nat, rsv: nat, dualRsv: nat, pick: nat, twin: bool)
    requires Valid(p)
  {
    && p.start < a.coded <= p.end
    && s.flags == Skips(asked) && s.stop == (if Stopped(asked) then skipRsv else 0)
    && s.intensity == (if rsv > 0 then p.t.log2Frac[a.coded - p.start] else 0)
    && a.intensity == (if rsv > 0 then p.start + Min(pick, a.coded - p.start) else 0)
    && s.dual == (if a.intensity > p.start then dualRsv else 0)
    && (a.dual <==> s.dual > 0 && twin)
  }

  method Interp(p: Problem, v: seq<int>, w: seq<int>, skipStart: nat, total0: int, skipRsv: nat, rsv0: nat, dualRsv0: nat,
                answers: seq<bool>, pick: nat, twin: bool)
    returns (a: Allocation, s: Symbols, asked: seq<bool>, ghost step: nat, ghost shares: seq<int>)
    requires Valid(p) && |v| == |w| == |answers| == BANDS && p.start <= skipStart < p.end && total0 >= 0
    requires forall j :: 0 <= j < BANDS ==> v[j] >= 0 && w[j] >= 0
    requires Demand(p, Mix(v, w, 0), p.start).0 <= total0
    requires rsv0 == 0 || rsv0 == p.t.log2Frac[p.end - p.start]
    ensures Allocated(p, a)
    ensures Spent(p, a.bits, a.ebits, p.start, p.end) + a.balance + Paid(s) == total0 + skipRsv + rsv0 + dualRsv0
    ensures Asked(p, asked, answers, skipStart, a.coded) && Charged(p, a, s, asked, skipRsv, rsv0, dualRsv0, pick, twin)
    ensures Chosen(p, v, w, step, total0, rsv0, answers, skipStart, a.coded)
    ensures Finished(p, a, FirstShares(p, Mix(v, w, step)), shares)
  {
    var bits := new int[BANDS](_ => 0);
    var coded, total, psum, rsv;
    coded, total, psum, rsv, asked, step := Choose(p, v, w, bits, skipStart, total0, skipRsv, rsv0, answers);
    ghost var first := FirstShares(p, Mix(v, w, step));
    a, s, shares := Code(p, bits, first, coded, total0, total, psum, rsv, skipRsv, rsv0, dualRsv0, asked, pick, twin);
  }

  /** The symbols after the skipping, and the bands. */
  method Code(p: Problem, bits: array<int>, ghost first: seq<int>, coded: nat, ghost total0: int, total1: int, psum: int, rsv: nat,
              skipRsv: nat, ghost rsv0: nat, dualRsv0: nat, asked: seq<bool>, pick: nat, twin: bool)
    returns (a: Allocation, s: Symbols, ghost shares: seq<int>)
    requires Valid(p) && bits.Length == |first| == BANDS && rsv0 >= 0 && (rsv > 0 <==> rsv0 > 0)
    requires Skipping(p, bits[..], coded, psum, total0, rsv, rsv0, Skips(asked)) && Agree(bits[..], first, coded)
    requires total1 == total0 + (if Stopped(asked) then 0 else skipRsv)
    modifies bits
    ensures Allocated(p, a) && a.coded == coded
    ensures Spent(p, a.bits, a.ebits, p.start, p.end) + a.balance + Paid(s) == total0 + skipRsv + rsv0 + dualRsv0
    ensures Charged(p, a, s, asked, skipRsv, rsv0, dualRsv0, pick, twin)
    ensures Finished(p, a, first, shares)
  {
    var total := total1;
    LogPositive(p, coded);
    var intensity := if rsv > 0 then p.start + Min(pick, coded - p.start) else 0;
    var dualRsv := dualRsv0;
    if intensity <= p.start {
      total := total + dualRsv;
      dualRsv := 0;
    }
    var dual := dualRsv > 0 && twin;
    ghost var was := bits[..];
    var left := total - psum;
    shares := Shares(p, was, coded, left);
    a := Divided(p, bits, coded, left, dual, intensity);
    FinishedIs(p, a, first, was, coded, left, shares);
    s := Symbols(Skips(asked), if Stopped(asked) then skipRsv else 0, rsv, dualRsv);
    ChargedIs(p, a, s, asked, skipRsv, rsv, rsv0, dualRsv, dualRsv0, pick, twin);
  }

  lemma ChargedIs(p: Problem, a: Allocation, s: Symbols, asked: seq<bool>, skipRsv: nat, rsv: nat, rsv0: nat,
                  dualRsv: nat, dualRsv0: nat, pick: nat, twin: bool)
    requires Valid(p) && p.start < a.coded <= p.end && (rsv > 0 <==> rsv0 > 0)
    requires rsv == (if rsv0 > 0 then p.t.log2Frac[a.coded - p.start] else 0)
    requires a.intensity == (if rsv > 0 then p.start + Min(pick, a.coded - p.start) else 0)
    requires dualRsv == (if a.intensity <= p.start then 0 else dualRsv0) && a.dual == (dualRsv > 0 && twin)
    requires s == Symbols(Skips(asked), if Stopped(asked) then skipRsv else 0, rsv, dualRsv)
    ensures Charged(p, a, s, asked, skipRsv, rsv0, dualRsv0, pick, twin)
  {
  }

  /** How the bands end: each coded one has its first share and its part of what is
      left, split with what it takes over; each skipped one has the floor or nothing,
      all of it fine energy. */
  ghost predicate Finished(p: Problem, a: Allocation, first: seq<int>, shares: seq<int>)
    requires Valid(p) && |first| == BANDS
  {
    && |shares| == BANDS && p.start < a.coded <= p.end
    && (exists left: nat :: DealtFrom(p, first, shares, a.coded, left))
    && (forall j :: a.coded <= j < p.end ==> shares[j] == 0 || shares[j] == Floor(p))
    && Ends(p, a, shares)
  }

  ghost predicate Ends(p: Problem, a: Allocation, shares: seq<int>)
    requires Valid(p)
  {
    && |shares| == BANDS && p.start < a.coded <= p.end
    && FineTo(p, shares, a.dual, a.intensity, a.bits, a.ebits, a.prio, a.coded)
    && SkippedTo(p, shares, a.bits, a.ebits, a.prio, a.coded, p.end)
    && a.balance == Balance(p, shares, a.dual, a.intensity, a.coded)
  }

  ghost predicate DealtFrom(p: Problem, first: seq<int>, shares: seq<int>, coded: nat, left: nat)
    requires Valid(p) && |first| == |shares| == BANDS && p.start < coded <= p.end
  {
    forall j :: p.start <= j < coded ==> shares[j] == first[j] + Dealt(p, coded, left, j)
  }

  lemma FinishedIs(p: Problem, a: Allocation, first: seq<int>, was: seq<int>, coded: nat, left: nat, shares: seq<int>)
    requires Valid(p) && |first| == |was| == BANDS && p.start < coded <= p.end && a.coded == coded
    requires shares == Shares(p, was, coded, left)
    requires Agree(was, first, coded)
    requires forall j :: coded <= j < p.end ==> was[j] == 0 || was[j] == Floor(p)
    requires Ends(p, a, shares)
    ensures Finished(p, a, first, shares)
  {
    assert DealtFrom(p, first, shares, coded, left);
  }

  lemma LogPositive(p: Problem, coded: nat)
    requires Valid(p) && p.start < coded <= p.end
    ensures p.t.log2Frac[coded - p.start] > 0
  {
    assert p.t.log2Frac[1] <= p.t.log2Frac[coded - p.start];
  }

  /** How many bands are coded follows from the step that was found, the first
      shares at that step, and the answers. */
  ghost predicate Chosen(p: Problem, v: seq<int>, w: seq<int>, step: nat, total: int, rsv0: nat, answers: seq<bool>,
                         skipStart: nat, coded: nat)
    requires Valid(p) && |v| == |w| == |answers| == BANDS && p.start <= skipStart < p.end
  {
    && StepFound(p, v, w, step, total)
    && coded == CodedBands(p, FirstShares(p, Mix(v, w, step)), p.end, 0, total, rsv0, answers, skipStart)
  }

  /** The bands to code, and what they have before the rest is spread. */
  method Choose(p: Problem, v: seq<int>, w: seq<int>, bits: array<int>, skipStart: nat, total0: int, skipRsv: nat, rsv0: nat,
                answers: seq<bool>)
    returns (coded: nat, total: int, psum: int, rsv: nat, asked: seq<bool>, ghost step: nat)
    requires Valid(p) && |v| == |w| == |answers| == bits.Length == BANDS && p.start <= skipStart < p.end && total0 >= 0
    requires forall j :: 0 <= j < BANDS ==> bits[j] == 0
    requires forall j :: 0 <= j < BANDS ==> v[j] >= 0 && w[j] >= 0
    requires Demand(p, Mix(v, w, 0), p.start).0 <= total0
    requires rsv0 == 0 || rsv0 == p.t.log2Frac[p.end - p.start]
    modifies bits
    ensures Skipping(p, bits[..], coded, psum, total0, rsv, rsv0, Skips(asked)) && Asked(p, asked, answers, skipStart, coded)
    ensures total == total0 + (if Stopped(asked) then 0 else skipRsv)
    ensures Chosen(p, v, w, step, total0, rsv0, answers, skipStart, coded)
    ensures Agree(bits[..], FirstShares(p, Mix(v, w, step)), coded)
  {
    var lo := Interpolate(p, v, w, total0);
    MixNat(v, w, lo);
    psum := Assign(p, Mix(v, w, lo), bits);
    step := lo;
    assert bits[..] == FirstShares(p, Mix(v, w, lo));
    coded, total, psum, rsv, asked := Skip(p, bits, skipStart, total0, psum, skipRsv, rsv0, answers);
  }

  /** Spreads the rest over the coded bands and splits every band. */
  method Divided(p: Problem, bits: array<int>, coded: nat, left: int, dual: bool, intensity: nat) returns (a: Allocation)
    requires Valid(p) && bits.Length == BANDS && p.start < coded <= p.end && left >= 0
    requires forall j :: p.start <= j < p.end ==> bits[j] >= 0
    requires forall j :: coded <= j < p.end ==> bits[j] == 0 || bits[j] == Floor(p)
    modifies bits
    ensures |a.bits| == |a.ebits| == |a.prio| == BANDS && a.balance >= 0 && SplitTo(p, a.bits, a.ebits, coded, p.end)
    ensures Spent(p, a.bits, a.ebits, p.start, p.end) + a.balance == old(Sum(bits[..], p.start, p.end)) + left
    ensures a.coded == coded && a.intensity == intensity && a.dual == dual
    ensures Ends(p, a, Shares(p, old(bits[..]), coded, left))
  {
    ghost var was := bits[..];
    Spread(p, bits, coded, left);
    SumSplit(was, p.start, coded, p.end);
    SumSplit(bits[..], p.start, coded, p.end);
    SumSame(was, bits[..], coded, p.end);
    DealtShares(p, was, bits[..], coded, left);
    a := Finish(p, bits, coded, dual, intensity, Shares(p, was, coded, left));
  }

  /** Splits every band, which has these shares. */
  method Finish(p: Problem, bits: array<int>, coded: nat, dual: bool, intensity: nat, ghost shares: seq<int>)
    returns (a: Allocation)
    requires Valid(p) && bits.Length == BANDS && p.start < coded <= p.end && Same(p, bits[..], shares, p.start, p.end)
    requires forall j :: p.start <= j < coded ==> bits[j] >= 0
    requires forall j :: coded <= j < p.end ==> bits[j] == 0 || bits[j] == Floor(p)
    modifies bits
    ensures |a.bits| == |a.ebits| == |a.prio| == BANDS && a.balance >= 0 && SplitTo(p, a.bits, a.ebits, coded, p.end)
    ensures Spent(p, a.bits, a.ebits, p.start, p.end) + a.balance == old(Sum(bits[..], p.start, p.end))
    ensures a.coded == coded && a.intensity == intensity && a.dual == dual && Ends(p, a, shares)
  {
    var ebits, prio := new int[BANDS](_ => 0), new bool[BANDS](_ => false);
    ghost var dealt := bits[..];
    SumSplit(dealt, p.start, coded, p.end);
    var balance := FinishCoded(p, bits, ebits, prio, coded, dual, intensity);
    SumSame(dealt, bits[..], coded, p.end);
    ghost var now, enow, pnow := bits[..], ebits[..], prio[..];
    SameFine(p, dealt, shares, dual, intensity, now, enow, pnow, coded);
    FinishSkipped(p, bits, ebits, prio, coded);
    assert bits[..][..coded] == now[..coded] && ebits[..][..coded] == enow[..coded] && prio[..][..coded] == pnow[..coded];
    KeptFine(p, shares, dual, intensity, now, enow, pnow, bits[..], ebits[..], prio[..], coded);
    SameSkipped(p, dealt, now, shares, bits[..], ebits[..], prio[..], coded);
    a := Allocation(coded, balance, intensity, dual, bits[..], ebits[..], prio[..]);
  }

  lemma DealtShares(p: Problem, was: seq<int>, dealt: seq<int>, coded: nat, left: nat)
    requires Valid(p) && |was| == |dealt| == BANDS && p.start < coded <= p.end
    requires forall j :: coded <= j < BANDS ==> dealt[j] == was[j]
    requires forall j :: p.start <= j < coded ==> dealt[j] == was[j] + Dealt(p, coded, left, j)
    ensures Same(p, dealt, Shares(p, was, coded, left), p.start, p.end)
  {
  }

  ghost predicate Same(p: Problem, a: seq<int>, b: seq<int>, i: nat, j: nat) {
    |a| == |b| == BANDS && j <= BANDS && forall k :: i <= k < j ==> a[k] == b[k]
  }

  /** What every band has once the rest is dealt: the coded bands their part of it. */
  function Shares(p: Problem, bits: seq<int>, coded: nat, left: nat): (shares: seq<int>)
    requires Valid(p) && |bits| == BANDS && p.start < coded <= p.end
    ensures |shares| == BANDS
  {
    seq(BANDS, j requires 0 <= j < BANDS => bits[j] + (if p.start <= j < coded then Dealt(p, coded, left, j) else 0))
  }

  /** A split depends on what the bands up to it have. */
  lemma {:induction false} SameSettled(p: Problem, a: seq<int>, b: seq<int>, dual: bool, intensity: nat, j: nat)
    requires Valid(p) && |a| == |b| == BANDS && p.start <= j <= p.end && forall k :: p.start <= k < j ==> a[k] == b[k]
    ensures Balance(p, a, dual, intensity, j) == Balance(p, b, dual, intensity, j)
    ensures SettledTo(p, a, b, dual, intensity, j)
    decreases j
  {
    if j > p.start {
      SameSettled(p, a, b, dual, intensity, j - 1);
      SettledSame(p, a, b, dual, intensity, j - 1, Balance(p, a, dual, intensity, j - 1));
      OneMore(p, a, b, dual, intensity, j - 1, j);
    }
  }

  /** The splits of the bands before j are the same. */
  ghost predicate SettledTo(p: Problem, a: seq<int>, b: seq<int>, dual: bool, intensity: nat, j: nat)
    requires Valid(p) && |a| == |b| == BANDS && j <= p.end
  {
    forall k :: p.start <= k < j ==> Settled(p, a, dual, intensity, k) == Settled(p, b, dual, intensity, k)
  }

  lemma OneMore(p: Problem, a: seq<int>, b: seq<int>, dual: bool, intensity: nat, k: nat, j: nat)
    requires Valid(p) && |a| == |b| == BANDS && p.start <= k < p.end && j == k + 1
    requires SettledTo(p, a, b, dual, intensity, k)
    requires Settled(p, a, dual, intensity, k) == Settled(p, b, dual, intensity, k)
    ensures SettledTo(p, a, b, dual, intensity, j)
  {
  }

  lemma SettledSame(p: Problem, a: seq<int>, b: seq<int>, dual: bool, intensity: nat, k: nat, balance: int)
    requires Valid(p) && |a| == |b| == BANDS && p.start <= k < p.end && a[k] == b[k]
    requires balance == Balance(p, a, dual, intensity, k) == Balance(p, b, dual, intensity, k)
    ensures Settled(p, a, dual, intensity, k) == Settled(p, b, dual, intensity, k)
    ensures Balance(p, a, dual, intensity, k + 1) == Balance(p, b, dual, intensity, k + 1)
  {
    var bit := a[k] + balance;
    var s := FineSplit(p, k, bit, balance, dual, intensity);
    SettledIs(p, a, dual, intensity, k, s, bit, balance);
    SettledIs(p, b, dual, intensity, k, s, bit, balance);
  }

  lemma SameFine(p: Problem, a: seq<int>, b: seq<int>, dual: bool, intensity: nat, bits: seq<int>, ebits: seq<int>,
                 prio: seq<bool>, j: nat)
    requires Valid(p) && p.start <= j <= p.end && Same(p, a, b, p.start, p.end)
    requires FineTo(p, a, dual, intensity, bits, ebits, prio, j)
    ensures FineTo(p, b, dual, intensity, bits, ebits, prio, j)
    ensures Balance(p, a, dual, intensity, j) == Balance(p, b, dual, intensity, j)
  {
    SameSettled(p, a, b, dual, intensity, j);
  }

  lemma SameSkipped(p: Problem, dealt: seq<int>, now: seq<int>, b: seq<int>, bits: seq<int>, ebits: seq<int>, prio: seq<bool>,
                    coded: nat)
    requires Valid(p) && |now| == BANDS && p.start < coded <= p.end && Same(p, dealt, b, p.start, p.end)
    requires forall k :: coded <= k < BANDS ==> now[k] == dealt[k]
    requires SkippedTo(p, now, bits, ebits, prio, coded, p.end)
    ensures SkippedTo(p, b, bits, ebits, prio, coded, p.end)
  {
  }

  lemma KeptFine(p: Problem, shares: seq<int>, dual: bool, intensity: nat, bits: seq<int>, ebits: seq<int>, prio: seq<bool>,
                 bits': seq<int>, ebits': seq<int>, prio': seq<bool>, j: nat)
    requires Valid(p) && |shares| == BANDS && j <= p.end && FineTo(p, shares, dual, intensity, bits, ebits, prio, j)
    requires |bits'| == |ebits'| == |prio'| == BANDS
    requires bits'[..j] == bits[..j] && ebits'[..j] == ebits[..j] && prio'[..j] == prio[..j]
    ensures FineTo(p, shares, dual, intensity, bits', ebits', prio', j)
  {
    forall k | 0 <= k < j
      ensures bits'[k] == bits[k] && ebits'[k] == ebits[k] && prio'[k] == prio[k]
    {
      assert bits'[..j][k] == bits[..j][k] && ebits'[..j][k] == ebits[..j][k] && prio'[..j][k] == prio[..j][k];
    }
  }

  lemma MixNat(v: seq<int>, w: seq<int>, mid: nat)
    requires |v| == |w| && forall j :: 0 <= j < |v| ==> v[j] >= 0 && w[j] >= 0
    ensures forall j :: 0 <= j < |v| ==> Mix(v, w, mid)[j] >= 0
  {
    forall j | 0 <= j < |v|
      ensures Mix(v, w, mid)[j] >= 0
    {
      MulNat(mid, w[j]);
    }
  }

  /** No band is in debt or above its cap, and fine energy has at most eight bits. */
  ghost predicate Allocated(p: Problem, a: Allocation)
    requires Valid(p)
  {
    && |a.prio| == BANDS && a.balance >= 0 && SplitTo(p, a.bits, a.ebits, a.coded, p.end)
    && (a.intensity == 0 || p.start <= a.intensity <= a.coded) && (a.dual ==> a.intensity > p.start)
  }

  /** Sets aside what the symbols after the shares may need. */
  method Reserve(p: Problem, total0: int) returns (total: int, skipRsv: nat, rsv: nat, dualRsv: nat)
    requires Valid(p)
    ensures skipRsv == SkipReserve(total0) && rsv == IntensityReserve(p, total0) && dualRsv == DualReserve(p, total0)
    ensures 0 <= total == Unreserved(p, total0)
    ensures rsv == 0 || rsv == p.t.log2Frac[p.end - p.start]
  {
    total := Max(total0, 0);
    skipRsv := if total >= 8 then 8 else 0;
    total := total - skipRsv;
    rsv, dualRsv := 0, 0;
    LogPositive(p, p.end);
    if p.c == 2 {
      rsv := p.t.log2Frac[p.end - p.start];
      if rsv > total {
        rsv := 0;
      } else {
        total := total - rsv;
        dualRsv := if total >= 8 then 8 else 0;
        total := total - dualRsv;
      }
    }
  }

  /** Conservation: shape, fine energy, balance and the coded symbols together are
      exactly the total; and which symbols were coded is settled by the answers. */
  method Allocate(p: Problem, total0: int, answers: seq<bool>, pick: nat, twin: bool)
    returns (a: Allocation, s: Symbols, asked: seq<bool>, ghost row: nat, ghost step: nat, ghost shares: seq<int>)
    requires Valid(p) && |answers| == BANDS
    ensures Allocated(p, a)
    ensures Spent(p, a.bits, a.ebits, p.start, p.end) + a.balance + Paid(s) == Max(total0, 0)
    ensures Asked(p, asked, answers, SkipStart(p, p.end), a.coded)
    ensures Charged(p, a, s, asked, SkipReserve(total0), IntensityReserve(p, total0), DualReserve(p, total0), pick, twin)
    ensures RowFound(p, row, Unreserved(p, total0))
    ensures Chosen(p, Lower(p, row), Step(p, row), step, Unreserved(p, total0), IntensityReserve(p, total0), answers,
                   SkipStart(p, p.end), a.coded)
    ensures Finished(p, a, FirstShares(p, Mix(Lower(p, row), Step(p, row), step)), shares)
  {
    var total, skipRsv, rsv, dualRsv := Reserve(p, total0);
    var lo := PickRow(p, total);
    var v, w := Lower(p, lo), Step(p, lo);
    forall j | 0 <= j < BANDS
      ensures v[j] >= 0 && w[j] >= 0
    {
      LowerNat(p, lo, j);
    }
    LowerFits(p, lo, total);
    row := lo;
    a, s, asked, step, shares := Interp(p, v, w, SkipStart(p, p.end), total, skipRsv, rsv, dualRsv, answers, pick, twin);
  }
}
