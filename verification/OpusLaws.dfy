// What the parts of the range are, apart from being the same on both sides: the
// share of the frequencies; and the slots of the Laplace model, which leave no gap
// and fall off by the decay.

module OpusLaws {
  import opened Bits
  import opened OpusModel
  import L = OpusLaplace

  /** A boundary above frequency k is what the frequencies from k on have of the
      range, less what the division loses for each. */
  lemma BoundMeasures(rng: nat, ft: nat, k: nat)
    requires BOT < rng && 0 < k <= ft <= BOT
    ensures DivFits(rng, ft)
    ensures var u := Bound(rng, rng / ft, ft, k);
      Times(u, ft) <= Times(rng, ft - k) <= Times(u, ft) + Times(ft, ft - k)
  {
    var r := rng / ft;
    DivRatio(rng, ft);
    DivFloor(rng, ft);
    var m := ft - k;
    assert Times(r, ft) <= rng <= Times(r, ft) + ft;
    Ordered(Times(r, ft), rng, m);
    Ordered(rng, Times(r, ft) + ft, m);
    assert Times(r, ft) * m == (r * m) * ft;
    assert (Times(r, ft) + ft) * m == Times(r, ft) * m + ft * m;
  }

  ghost predicate DivFits(rng: nat, ft: nat) {
    ft > 0 && rng / ft > 0 && Times(rng / ft, ft) <= rng
  }

  lemma Ordered(a: nat, b: nat, m: nat)
    requires a <= b
    ensures a * m <= b * m
  {
    assert (b - a) * m >= 0;
    assert b * m == a * m + (b - a) * m;
  }

  /** The first symbol's part begins at the top of the range, and the last ends at
      its bottom: nothing of it is lost. */
  lemma BoundEnds(rng: nat, ft: nat)
    requires BOT < rng && 0 < ft <= BOT
    ensures DivFits(rng, ft) && Bound(rng, rng / ft, ft, 0) == rng && Bound(rng, rng / ft, ft, ft) == 0
  {
    DivRatio(rng, ft);
  }

  // ---- the Laplace model

  /** Slots follow each other without a gap: first the zero, then of each magnitude
      the negative value and the positive one. */
  lemma SlotsFollow(a: nat, fs0: nat, decay: nat)
    requires L.ValidModel(fs0, decay) && a >= 1
    ensures L.Slot(0, fs0, decay) == (0, fs0) && L.Slot(-1, fs0, decay).0 == fs0
    ensures L.Slot(L.Signed(a, true), fs0, decay).1 == L.Slot(a, fs0, decay).0
    ensures L.Slot(a, fs0, decay).1 == L.Slot(L.Signed(a + 1, true), fs0, decay).0
  {
    Pair(fs0, L.Freq1(fs0, decay), decay, 1, a);
    First(fs0, L.Freq1(fs0, decay), decay);
  }

  lemma First(fl: nat, f: nat, decay: nat)
    requires decay < 16384
    ensures L.SlotFrom(fl, f, decay, 1, 1, true).0 == fl
  {
  }

  lemma {:induction false} Pair(fl: nat, f: nat, decay: nat, i: nat, a: nat)
    requires decay < 16384 && i <= a
    ensures L.SlotFrom(fl, f, decay, i, a, true).1 == L.SlotFrom(fl, f, decay, i, a, false).0
    ensures L.SlotFrom(fl, f, decay, i, a, false).1 == L.SlotFrom(fl, f, decay, i, a + 1, true).0
    decreases f
  {
    if f > 0 {
      L.DecayedLess(f, decay);
      if i < a {
        Pair(fl + 2 * f + 2, L.Decayed(f, decay), decay, i + 1, a);
      } else {
        Start(fl + 2 * f + 2, L.Decayed(f, decay), decay, i + 1);
      }
    }
  }

  lemma Start(fl: nat, f: nat, decay: nat, i: nat)
    requires decay < 16384
    ensures L.SlotFrom(fl, f, decay, i, i, true).0 == fl
  {
  }

  /** The size of a value's slot. */
  function Size(a: nat, fs0: nat, decay: nat): int
    requires L.ValidModel(fs0, decay)
  {
    L.Slot(a, fs0, decay).1 - L.Slot(a, fs0, decay).0
  }

  /** Both signs of a magnitude have slots of one size, which falls off by the decay
      of 16384 from one magnitude to the next, down to a single frequency. */
  lemma SlotsDecay(a: nat, fs0: nat, decay: nat)
    requires L.ValidModel(fs0, decay) && a >= 1
    ensures Size(a, fs0, decay) >= 1
    ensures L.Slot(L.Signed(a, true), fs0, decay).1 - L.Slot(L.Signed(a, true), fs0, decay).0 == Size(a, fs0, decay)
    ensures var f, g := Size(a, fs0, decay) - 1, Size(a + 1, fs0, decay) - 1;
      f >= 0 && g >= 0 && 16384 * g <= Times(f, decay) < 16384 * g + 16384
  {
    Falls(fs0, L.Freq1(fs0, decay), decay, 1, a);
  }

  lemma {:induction false} Falls(fl: nat, f: nat, decay: nat, i: nat, a: nat)
    requires decay < 16384 && i <= a
    ensures var p, q := L.SlotFrom(fl, f, decay, i, a, false), L.SlotFrom(fl, f, decay, i, a + 1, false);
      var m := L.SlotFrom(fl, f, decay, i, a, true);
      && p.1 - p.0 == m.1 - m.0 >= 1 && q.1 - q.0 >= 1
      && 16384 * (q.1 - q.0 - 1) <= Times(p.1 - p.0 - 1, decay) < 16384 * (q.1 - q.0 - 1) + 16384
    decreases f
  {
    if f > 0 {
      L.DecayedLess(f, decay);
      if i < a {
        Falls(fl + 2 * f + 2, L.Decayed(f, decay), decay, i + 1, a);
      } else {
        NextSize(fl + 2 * f + 2, L.Decayed(f, decay), decay, i + 1);
        TwiceTimes(f, decay);
      }
    }
  }

  lemma NextSize(fl: nat, f: nat, decay: nat, i: nat)
    requires decay < 16384
    ensures var q := L.SlotFrom(fl, f, decay, i, i, false); q.1 - q.0 == f + 1
  {
  }

  lemma TwiceTimes(f: nat, decay: nat)
    ensures Times(2 * f, decay) == 2 * Times(f, decay)
  {
  }

  /** The first magnitude's slots: what zero leaves of the frequencies, less 32, by
      what the decay lacks to 16384, out of 32768. */
  lemma FirstSize(fs0: nat, decay: nat)
    requires L.ValidModel(fs0, decay)
    ensures var f := Size(1, fs0, decay) - 1;
      f >= 0 && 32768 * f <= Times(32736 - fs0, 16384 - decay) < 32768 * f + 32768
  {
    NextSize(fs0, L.Freq1(fs0, decay), decay, 1);
  }

  // ---- integers in two parts

  /** A range of up to eight bits is one symbol; a larger one has exactly eight of its
      bits in the symbol, and as many raw ones as are left. */
  lemma UintParts(ft: nat)
    requires 2 <= ft <= WORD
    ensures ft <= 256 ==> Spill(ft) == 0 && HighCount(ft) == ft
    ensures ft > 256 ==> Spill(ft) > 0 && 128 < HighCount(ft) <= 256
    ensures Shl(HighCount(ft) - 1, Spill(ft)) <= ft - 1 < Shl(HighCount(ft), Spill(ft))
  {
    UintSplit(ft - 1, BitLen(ft - 1), Spill(ft), HighCount(ft));
  }

  lemma UintSplit(top: nat, n: nat, b: nat, count: nat)
    requires 0 < top && n == BitLen(top) && b == (if n > 8 then n - 8 else 0) && count == Shr(top, b) + 1
    ensures top < 256 ==> b == 0 && count == top + 1
    ensures top >= 256 ==> b > 0 && 128 < count <= 256
    ensures Shl(count - 1, b) <= top < Shl(count, b)
  {
    ShrLess(top, b, count);
    ShrLess(top, b, count - 1);
    BitLenBounds(top);
    EightBits(top, n);
    if n > 8 {
      Pow2Shl(7, b);
      Pow2Shl(8, b);
      Pow2Values();
      ShrLess(top, b, 128);
      ShrLess(top, b, 256);
    }
  }

  lemma EightBits(top: nat, n: nat)
    requires 0 < top && n == BitLen(top)
    ensures top < 256 <==> n <= 8
  {
    BitLenBounds(top);
    Pow2Values();
    if n <= 8 {
      Pow2Mono(n, 8);
    } else {
      Pow2Mono(8, n - 1);
    }
  }
}
