// What the quantities mean that the bit allocation compares: eighths of a bit for
// the lines of a band.

module CeltLaws {
  import opened Bits
  import opened CeltAllocation

  /** The threshold of a band: three eighths for every two lines, and the floor at least. */
  lemma ThreshIs(p: Problem, j: nat)
    requires Valid(p) && j < BANDS
    ensures var t, lines := Thresh(p, j), Blocks(p, j);
      && t >= Floor(p) && 2 * t >= 3 * lines - 1
      && (t == Floor(p) || 2 * t <= 3 * lines)
  {
    var w := Width(p, j);
    ShlSum(w, w, p.lm);
    ShlSum(w + w, w, p.lm);
    assert 3 * w == w + w + w;
  }

  /** At the neutral trim nothing is tilted; bands of a single line alone lose the floor. */
  lemma TrimNeutral(p: Problem, j: nat)
    requires Valid(p) && j < p.end && p.trim == 5 + p.lm
    ensures TrimOffset(p, j) + (if Blocks(p, j) == 1 then Floor(p) else 0) == 0
  {
    assert p.c * Width(p, j) * (p.trim - 5 - p.lm) == 0;
  }

  /** Above it the lower bands gain, the more bands there are above them; below it they lose. */
  lemma TrimTilts(p: Problem, j: nat)
    requires Valid(p) && j < p.end && Blocks(p, j) != 1
    ensures p.trim > 5 + p.lm ==> TrimOffset(p, j) >= 0
    ensures p.trim < 5 + p.lm ==> TrimOffset(p, j) <= 0
  {
    var cw, d, m := p.c * Width(p, j), p.trim - 5 - p.lm, p.end - j - 1;
    MulNat(p.c, Width(p, j));
    var s := Shl(1, p.lm + 3);
    ShlNat(1, p.lm + 3);
    if d > 0 {
      MulNat(cw, d);
      MulNat(cw * d, m);
      MulNat(cw * d * m, s);
    } else if d < 0 {
      MulNat(cw, -d);
      assert cw * d == -(cw * -d);
      MulNat(cw * -d, m);
      assert cw * d * m == -(cw * -d * m);
      MulNat(cw * -d * m, s);
      assert cw * d * m * s == -(cw * -d * m * s);
    }
  }

  // ---- fine energy

  /** With bits and offset written out: unless they are cut off, the fine bits of all
      degrees of freedom are the bits with the offset, to within half a bit of each;
      and they come first no more exactly when they were not rounded down. */
  lemma FineRounds(p: Problem, j: nat, bits: nat, dual: bool, intensity: nat)
    requires Valid(p) && j < BANDS && Blocks(p, j) > 1
    ensures var e, den := FineBits(p, j, bits, dual, intensity), Freedom(p, j, dual, intensity);
      var offset := FineOffset(p, j, bits, dual, intensity);
      && (0 < e < MAX_FINE && Cost(p, e + 1) <= bits ==> -4 * den <= e * (8 * den) - (bits + offset) <= 4 * den)
      && (RoundedUp(p, j, bits, dual, intensity) <==> e * (8 * den) >= bits + offset)
  {
    if 0 < FineBits(p, j, bits, dual, intensity) < MAX_FINE && Cost(p, FineBits(p, j, bits, dual, intensity) + 1) <= bits {
      FineClose(p, j, bits, dual, intensity);
    }
  }

  /** A band of eight lines of one channel. */
  ghost predicate Eight(p: Problem, j: nat) {
    Valid(p) && j < BANDS && p.c == 1 && p.lm == 3 && Blocks(p, j) == 8 && p.t.logN[j] == 0
  }

  lemma EightOffset(p: Problem, j: nat, bits: int, dual: bool, intensity: nat)
    requires Eight(p, j)
    ensures Freedom(p, j, dual, intensity) == 8
    ensures FineOffset(p, j, bits, dual, intensity) == if bits < 200 then -24 else if bits < 264 then -48 else -72
  {
  }

  /** Of 200 eighths it keeps 184 for its shape and has two fine bits, rounded down. */
  lemma EightSplits(p: Problem, j: nat, dual: bool, intensity: nat)
    requires Eight(p, j) && p.cap[j] >= 200
    ensures FineSplit(p, j, 200, 0, dual, intensity) == Split(184, 2, false, 0)
  {
    EightOffset(p, j, 200, dual, intensity);
  }

  /** With room for 100 of them it has eight, of which the excess buys seven, and
      passes 44 on. */
  lemma EightExceeds(p: Problem, j: nat, dual: bool, intensity: nat)
    requires Eight(p, j) && p.cap[j] == 100
    ensures FineSplit(p, j, 200, 50, dual, intensity) == Split(92, 8, true, 44)
    ensures FineSplit(p, j, 200, 40, dual, intensity) == Split(92, 8, false, 44)
  {
    EightOffset(p, j, 100, dual, intensity);
  }

  /** Four lines of two channels below the intensity band: nine degrees of freedom. */
  lemma FourSplits(p: Problem, j: nat, intensity: nat)
    requires Valid(p) && j < BANDS && p.c == 2 && p.lm == 2 && Blocks(p, j) == 4 && p.t.logN[j] == 0
    requires j < intensity && p.cap[j] >= 300
    ensures Freedom(p, j, false, intensity) == 9 && Freedom(p, j, true, intensity) == 8
    ensures FineOffset(p, j, 300, false, intensity) == -99
    ensures FineSplit(p, j, 300, 0, false, intensity) == Split(252, 3, true, 0)
  {
    assert Freedom(p, j, false, intensity) == 9;
    assert FineOffset(p, j, 300, false, intensity) == -99;
  }

  /** Two lines of two channels have two eighths more for each degree of freedom. */
  lemma TwoSplits(p: Problem, j: nat, intensity: nat)
    requires Valid(p) && j < BANDS && p.c == 2 && p.lm == 1 && Blocks(p, j) == 2 && p.t.logN[j] == 0 && p.cap[j] >= 100
    ensures FineOffset(p, j, 100, false, intensity) == -52
    ensures FineSplit(p, j, 100, 0, false, intensity) == Split(68, 2, true, 0)
  {
    assert Freedom(p, j, false, intensity) == 4;
    assert FineOffset(p, j, 100, false, intensity) == -52;
  }
}
