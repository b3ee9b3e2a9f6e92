// How adaptation moves the shares of a distribution: the symbol that was coded gains
// a part of what it lacks, and every other one loses the same part of what it has.

module MsacShares {
  import opened Bits
  import opened MsacModel

  /** The share of a symbol among 32768: from the boundary before it to its own. */
  function Share(cdf: seq<nat>, s: nat): int
    requires ValidCdf(cdf) && s < |cdf|
  {
    (if s == 0 then 32768 else cdf[s - 1]) - (if s == |cdf| - 1 then 0 else cdf[s])
  }

  /** The shares of the first k symbols. */
  function Shares(cdf: seq<nat>, k: nat): int
    requires ValidCdf(cdf) && k <= |cdf|
  {
    if k == 0 then 0 else Shares(cdf, k - 1) + Share(cdf, k - 1)
  }

  lemma {:induction false} SharesTo(cdf: seq<nat>, k: nat)
    requires ValidCdf(cdf) && k < |cdf|
    ensures Shares(cdf, k) == 32768 - (if k == 0 then 32768 else cdf[k - 1])
  {
    if k > 0 {
      SharesTo(cdf, k - 1);
    }
  }

  /** They make up the whole, before and after. */
  lemma SharesWhole(cdf: seq<nat>)
    requires ValidCdf(cdf)
    ensures Shares(cdf, |cdf|) == 32768
  {
    SharesTo(cdf, |cdf| - 1);
  }

  /** The rate is the one of the standard (section 8.2 of the AV1 specification):
      3, one more for a count above 15 and again above 31, and the logarithm of the
      number of symbols, at most 2. */
  lemma RateIs(cdf: seq<nat>)
    requires ValidCdf(cdf)
    ensures var n, count := |cdf|, cdf[|cdf| - 1];
      Rate(cdf) == 3 + (if count > 15 then 1 else 0) + (if count > 31 then 1 else 0)
                     + (if BitLen(n) - 1 < 2 then BitLen(n) - 1 else 2)
    ensures 4 <= Rate(cdf) <= 7
  {
    var n := |cdf|;
    assert BitLen(n) == 1 + BitLen(n / 2) && BitLen(n / 2) == 1 + BitLen(n / 2 / 2);
  }

  /** x loses floor(x / 2^rate), as do two of them together to within one. */
  lemma ShiftParts(x: nat, y: nat, rate: nat)
    ensures var d := Shr(x, rate) + Shr(y, rate); Shl(d, rate) <= x + y < Shl(d + 2, rate)
  {
    LowBounds(x, rate);
    LowBounds(y, rate);
    ShlSum(Shr(x, rate), Shr(y, rate), rate);
    ShlSum(Shr(x, rate) + Shr(y, rate), 2, rate);
    ShlSum(1, 1, rate);
  }

  lemma ShiftGap(x: nat, y: nat, rate: nat)
    requires x <= y
    ensures var d := Shr(y, rate) - Shr(x, rate);
      Shl(d, rate) - Pow2(rate) < y - x < Shl(d, rate) + Pow2(rate)
  {
    LowBounds(x, rate);
    LowBounds(y, rate);
    ShlSum(Shr(y, rate) - Shr(x, rate), Shr(x, rate), rate);
  }

  lemma AdaptedAt(cdf: seq<nat>, s: nat, i: nat)
    requires ValidCdf(cdf) && s < |cdf| && i < |cdf| - 1
    ensures cdf[i] < 32768
    ensures Adapted(cdf, s)[i] == if i < s then Raised(cdf[i], Rate(cdf)) else Lowered(cdf[i], Rate(cdf))
  {
  }

  /** The coded symbol gains the 2^rate-th part of what it lacks, to within two. */
  lemma CodedGains(cdf: seq<nat>, s: nat)
    requires ValidCdf(cdf) && s < |cdf|
    ensures ValidCdf(Adapted(cdf, s))
    ensures var gain, rate := Share(Adapted(cdf, s), s) - Share(cdf, s), Rate(cdf);
      gain >= 0 && Shl(gain, rate) <= 32768 - Share(cdf, s) < Shl(gain + 2, rate)
  {
    var n, rate := |cdf| - 1, Rate(cdf);
    AdaptedValid(cdf, s);
    if s > 0 {
      AdaptedAt(cdf, s, s - 1);
    }
    if s < n {
      AdaptedAt(cdf, s, s);
    }
    var lack: nat := if s == 0 then 0 else 32768 - cdf[s - 1];
    var below: nat := if s == n then 0 else cdf[s];
    ShrZero(rate);
    ShrNat(lack, rate);
    ShrNat(below, rate);
    ShiftParts(lack, below, rate);
  }

  lemma {:induction false} ShrZero(n: nat)
    ensures Shr(0, n) == 0
  {
    if n > 0 {
      ShrZero(n - 1);
    }
  }

  /** Every other symbol loses that part of what it has, to within one. */
  lemma OtherLoses(cdf: seq<nat>, s: nat, k: nat)
    requires ValidCdf(cdf) && s < |cdf| && k < |cdf| && k != s
    ensures ValidCdf(Adapted(cdf, s))
    ensures var loss, rate := Share(cdf, k) - Share(Adapted(cdf, s), k), Rate(cdf);
      Shl(loss, rate) - Pow2(rate) < Share(cdf, k) < Shl(loss, rate) + Pow2(rate)
  {
    var n, rate := |cdf| - 1, Rate(cdf);
    AdaptedValid(cdf, s);
    if k > 0 {
      AdaptedAt(cdf, s, k - 1);
    }
    if k < n {
      AdaptedAt(cdf, s, k);
    }
    ShrZero(rate);
    var hi: nat := if k == 0 then 32768 else cdf[k - 1];
    var lo: nat := if k == n then 0 else cdf[k];
    assert lo <= hi <= 32768;
    if k < s {
      ShiftGap(32768 - hi, 32768 - lo, rate);
    } else {
      ShiftGap(lo, hi, rate);
    }
  }

  /** A boundary is where its value says, as a part of the range: range times value
      over 32768, cut to the bits of both that are multiplied. */
  lemma CutMeasures(rng: nat, f: nat)
    requires rng < 0x10000 && f < 32768
    ensures var u := BoolCut(rng, f); 32768 * u <= rng * f < 32768 * u + 16384 + 63 * rng + 255 * f + 1
  {
    var a, b := rng / 256, f / 64;
    var x, y := rng % 256, f % 64;
    CutProduct(a, b, x, y, rng, f, rng * f, a * b, rng * y, b * x);
    RemainderTimes(rng, y, 63);
    RemainderTimes(f, x, 255);
    PartTimes(b, x, f, b * x);
  }

  lemma CutProduct(a: nat, b: nat, x: nat, y: nat, r: nat, f: nat, rf: int, ab: int, ry: int, bx: int)
    requires r == 256 * a + x && f == 64 * b + y && rf == r * f && ab == a * b && ry == r * y && bx == b * x
    ensures rf == 16384 * ab + ry + 64 * bx && ab >= 0 && ry >= 0 && bx >= 0
  {
    assert rf == r * (64 * b) + r * y;
    assert r * (64 * b) == 64 * (r * b) && r * b == 256 * (a * b) + x * b;
  }

  lemma PartTimes(b: nat, x: nat, f: nat, bx: int)
    requires 64 * b <= f && bx == b * x
    ensures 64 * bx <= f * x
  {
    assert (f - 64 * b) * x >= 0;
  }

  /** A boundary of a distribution is that of its value, moved by four for each symbol
      behind it; so every symbol has that much at least. */
  lemma SymbolCut(rng: nat, cdf: seq<nat>, k: nat)
    requires 0x8000 <= rng < 0x10000 && ValidCdf(cdf) && k < |cdf| - 1
    ensures var u, f := Cut(rng, cdf, k) - 4 * (|cdf| - 1 - k), cdf[k];
      u >= 0 && 32768 * u <= rng * f < 32768 * u + 16384 + 63 * rng + 255 * f + 1
    ensures Cut(rng, cdf, k) >= Cut(rng, cdf, k + 1) + 4 || k + 1 == |cdf| - 1
  {
    CutMeasures(rng, cdf[k]);
    if k + 1 < |cdf| - 1 {
      BoolCutBounds(rng, cdf[k], cdf[k + 1]);
    }
  }

  lemma RemainderTimes(r: nat, y: nat, m: nat)
    requires y <= m
    ensures r * y <= m * r
  {
  }
}
