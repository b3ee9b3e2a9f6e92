// The Laplace model of CELT's coarse energy (RFC 6716, section 4.3.2.1): a
// signed value takes a part of 32768 frequencies; magnitudes first decay
// geometrically, then share what is left one frequency at a time.

module OpusLaplace {
  import opened Bits
  import opened OpusModel
  import opened OpusEncoder
  import opened OpusDecoder
  import OpusRoundTrip

  const FT := 32768

  /** The frequency of -1 and +1, less the one every magnitude gets. */
  function Freq1(fs0: nat, decay: nat): nat
    requires fs0 <= FT - 32 && decay <= 16384
  {
    TimesSwap(FT - 32 - fs0, 16384 - decay);
    Times(FT - 32 - fs0, 16384 - decay) / 32768
  }

  function Decayed(f: nat, decay: nat): nat {
    Times(2 * f, decay) / 32768
  }

  lemma DecayedLess(f: nat, decay: nat)
    requires decay < 16384 && f > 0
    ensures Decayed(f, decay) < f
  {
    TimesMono(2 * f, decay, 16383);
    assert Times(2 * f, 16383) == 32766 * f;
  }

  /** Where the frequencies of single units begin, from a level on. */
  function TailFrom(fl: nat, f: nat, decay: nat): (r: nat)
    requires decay < 16384
    ensures r >= fl && (f > 0 ==> r >= fl + 2 * f + 2)
    decreases f
  {
    if f == 0 then fl
    else
      DecayedLess(f, decay);
      TailFrom(fl + 2 * f + 2, Decayed(f, decay), decay)
  }

  /** The decaying part leaves room for one more value of each sign. */
  predicate ValidModel(fs0: nat, decay: nat) {
    && 0 < fs0 <= FT - 32 && decay < 16384
    && TailFrom(fs0, Freq1(fs0, decay), decay) + 2 <= FT
  }

  /** The part of -a or +a, from the level of magnitude i on. */
  function SlotFrom(fl: nat, f: nat, decay: nat, i: nat, a: nat, negative: bool): (nat, nat)
    requires decay < 16384 && i <= a
    decreases f
  {
    if f == 0 then
      var lo := fl + 2 * (a - i) + (if negative then 0 else 1);
      (lo, lo + 1)
    else if i == a then
      (if negative then (fl, fl + f + 1) else (fl + f + 1, fl + 2 * f + 2))
    else
      DecayedLess(f, decay);
      SlotFrom(fl + 2 * f + 2, Decayed(f, decay), decay, i + 1, a, negative)
  }

  function Abs(x: int): nat {
    if x < 0 then -x else x
  }

  /** The part of the frequencies that belongs to a value. */
  function Slot(value: int, fs0: nat, decay: nat): (nat, nat)
    requires ValidModel(fs0, decay)
  {
    if value == 0 then (0, fs0) else SlotFrom(fs0, Freq1(fs0, decay), decay, 1, Abs(value), value < 0)
  }

  /** A value whose part lies within the total. */
  predicate Codable(value: int, fs0: nat, decay: nat)
    requires ValidModel(fs0, decay)
  {
    Slot(value, fs0, decay).1 <= FT
  }

  lemma {:induction false} SlotBounds(fl: nat, f: nat, decay: nat, i: nat, a: nat, negative: bool)
    requires decay < 16384 && i <= a
    ensures var s := SlotFrom(fl, f, decay, i, a, negative); fl <= s.0 < s.1
    decreases f
  {
    if f > 0 && i < a {
      DecayedLess(f, decay);
      SlotBounds(fl + 2 * f + 2, Decayed(f, decay), decay, i + 1, a, negative);
    }
  }

  /** Magnitudes lie in order, and of each the negative value first. */
  lemma {:induction false} SlotOrder(fl: nat, f: nat, decay: nat, i: nat, a: nat, m: bool, b: nat, n: bool)
    requires decay < 16384 && i <= a <= b && (a == b ==> m && !n)
    ensures SlotFrom(fl, f, decay, i, a, m).1 <= SlotFrom(fl, f, decay, i, b, n).0
    decreases f
  {
    if f > 0 && i < b {
      DecayedLess(f, decay);
      if i < a {
        SlotOrder(fl + 2 * f + 2, Decayed(f, decay), decay, i + 1, a, m, b, n);
      } else {
        SlotBounds(fl + 2 * f + 2, Decayed(f, decay), decay, i + 1, b, n);
      }
    }
  }

  /** Two values have disjoint parts. */
  lemma SlotsApart(v: int, w: int, fs0: nat, decay: nat)
    requires ValidModel(fs0, decay) && v != w
    ensures var a, b := Slot(v, fs0, decay), Slot(w, fs0, decay);
      a.0 < a.1 && b.0 < b.1 && (a.1 <= b.0 || b.1 <= a.0)
  {
    var f := Freq1(fs0, decay);
    if v != 0 {
      SlotBounds(fs0, f, decay, 1, Abs(v), v < 0);
    }
    if w != 0 {
      SlotBounds(fs0, f, decay, 1, Abs(w), w < 0);
    }
    if v != 0 && w != 0 {
      if Abs(v) < Abs(w) || (Abs(v) == Abs(w) && v < 0) {
        SlotOrder(fs0, f, decay, 1, Abs(v), v < 0, Abs(w), w < 0);
      } else {
        SlotOrder(fs0, f, decay, 1, Abs(w), w < 0, Abs(v), v < 0);
      }
    }
  }

  /** The interval a value leaves of the coder's. */
  function Stepped(c: Coder, value: int, fs0: nat, decay: nat): Coder
    requires Ok(c) && ValidModel(fs0, decay) && Codable(value, fs0, decay)
  {
    SlotProper(value, fs0, decay);
    TotalPow();
    ShiftTaken(c, 15, Slot(value, fs0, decay).0, Slot(value, fs0, decay).1)
  }

  lemma TotalPow()
    ensures Pow2(15) == FT
  {
    Pow2Values();
  }

  lemma SlotProper(value: int, fs0: nat, decay: nat)
    requires ValidModel(fs0, decay)
    ensures Slot(value, fs0, decay).0 < Slot(value, fs0, decay).1
  {
    if value != 0 {
      SlotBounds(fs0, Freq1(fs0, decay), decay, 1, Abs(value), value < 0);
    }
  }

  /** The walk from level 1 has come to level i. */
  ghost predicate At(fs0: nat, decay: nat, fl: nat, f: nat, i: nat) {
    && ValidModel(fs0, decay) && i >= 1
    && TailFrom(fl, f, decay) + 2 <= FT
    && forall b, n :: b >= i ==>
         SlotFrom(fs0, Freq1(fs0, decay), decay, 1, b, n) == SlotFrom(fl, f, decay, i, b, n)
  }

  lemma AtStart(fs0: nat, decay: nat)
    requires ValidModel(fs0, decay)
    ensures At(fs0, decay, fs0, Freq1(fs0, decay), 1)
  {
  }

  lemma AtNext(fs0: nat, decay: nat, fl: nat, f: nat, i: nat)
    requires At(fs0, decay, fl, f, i) && f > 0
    ensures At(fs0, decay, fl + 2 * f + 2, Decayed(f, decay), i + 1)
  {
    DecayedLess(f, decay);
    forall b, n | b >= i + 1
      ensures SlotFrom(fs0, Freq1(fs0, decay), decay, 1, b, n)
           == SlotFrom(fl + 2 * f + 2, Decayed(f, decay), decay, i + 1, b, n)
    {
      assert SlotFrom(fl, f, decay, i, b, n)
          == SlotFrom(fl + 2 * f + 2, Decayed(f, decay), decay, i + 1, b, n);
    }
  }

  lemma AtValue(fs0: nat, decay: nat, fl: nat, f: nat, i: nat, a: nat, value: int)
    requires At(fs0, decay, fl, f, i) && a >= i && Abs(value) == a
    ensures Slot(value, fs0, decay) == SlotFrom(fl, f, decay, i, a, value < 0)
  {
  }

  /** Past the decay every value has one frequency. */
  lemma AtTail(fs0: nat, decay: nat, fl: nat, f: nat, i: nat, a: nat, value: int)
    requires At(fs0, decay, fl, f, i) && f == 0 && a >= i && Abs(value) == a
    ensures var lo := fl + 2 * (a - i) + (if value < 0 then 0 else 1); Slot(value, fs0, decay) == (lo, lo + 1)
  {
    AtValue(fs0, decay, fl, f, i, a, value);
  }

  function Signed(a: nat, negative: bool): int {
    var x: int := a;
    if negative then -x else x
  }

  /** Past the decay: the value asked for, or the last one that has a slot. */
  lemma Capped(fs0: nat, decay: nat, fl: nat, f: nat, i: nat, value: int, s: int, di: int, coded: int)
    requires At(fs0, decay, fl, f, i) && f == 0 && Abs(value) >= i && s == (if value < 0 then -1 else 0)
    requires var most := (FT - fl - s) / 2 - 1; di == if Abs(value) - i < most then Abs(value) - i else most
    requires di >= 0 && coded == Signed(i + di, value < 0)
    ensures var lo := fl + 2 * di + 1 + s; Slot(coded, fs0, decay) == (lo, lo + 1) && lo + 1 <= FT
    ensures if Codable(value, fs0, decay) then coded == value
            else 0 < Abs(coded) < Abs(value) && (coded < 0 <==> value < 0)
                 && !Codable(Signed(Abs(coded) + 1, value < 0), fs0, decay)
  {
    AtTail(fs0, decay, fl, f, i, i + di, coded);
    AtTail(fs0, decay, fl, f, i, i + di + 1, Signed(i + di + 1, value < 0));
    AtTail(fs0, decay, fl, f, i, Abs(value), value);
  }

  /** Codes a value; one too large for the model becomes the largest of its sign. */
  method Encode(w: Enc, value: int, fs0: nat, decay: nat) returns (coded: int)
    requires w.Valid() && ValidModel(fs0, decay)
    modifies w, w.buf
    ensures w.Valid() && Codable(coded, fs0, decay) && w.coder == Stepped(old(w.coder), coded, fs0, decay)
    ensures w.error == 0 ==> old(w.error) == 0
    ensures if Codable(value, fs0, decay) then coded == value
            else 0 < Abs(coded) < Abs(value) && (coded < 0 <==> value < 0)
                 && !Codable(Signed(Abs(coded) + 1, value < 0), fs0, decay)
  {
    var fl, fs := 0, fs0;
    coded := value;
    if value != 0 {
      coded, fl, fs := Place(value, fs0, decay);
    }
    var ftb := 15;
    SlotTaken(w.coder, coded, fs0, decay, fl, fs, ftb);
    w.EncodeBin(fl % WORD, (fl + fs) % WORD, ftb);
  }

  lemma SlotTaken(c: Coder, value: int, fs0: nat, decay: nat, fl: nat, fs: nat, ftb: nat)
    requires Ok(c) && ValidModel(fs0, decay) && Codable(value, fs0, decay) && ftb == 15
    requires Slot(value, fs0, decay) == (fl, fl + fs)
    ensures fl % WORD == fl < fl + fs == (fl + fs) % WORD <= Pow2(ftb) == FT
    ensures Stepped(c, value, fs0, decay) == ShiftTaken(c, ftb, fl, fl + fs)
  {
    SlotProper(value, fs0, decay);
    TotalPow();
    SmallWord(fl);
    SmallWord(fl + fs);
  }

  lemma SmallWord(x: nat)
    requires x <= FT
    ensures x % WORD == x
  {
  }

  method Place(value: int, fs0: nat, decay: nat) returns (coded: int, fl: nat, fs: nat)
    requires ValidModel(fs0, decay) && value != 0
    ensures coded != 0 && Codable(coded, fs0, decay) && Slot(coded, fs0, decay) == (fl, fl + fs)
    ensures if Codable(value, fs0, decay) then coded == value
            else 0 < Abs(coded) < Abs(value) && (coded < 0 <==> value < 0)
                 && !Codable(Signed(Abs(coded) + 1, value < 0), fs0, decay)
  {
    var s := if value < 0 then -1 else 0;
    var val := Abs(value);
    coded := value;
    fl := fs0;
    fs := Freq1(fs0, decay);
    var i := 1;
    AtStart(fs0, decay);
    while fs > 0 && i < val
      invariant At(fs0, decay, fl, fs, i) && i <= val
      decreases val - i
    {
      AtNext(fs0, decay, fl, fs, i);
      var doubled := fs * 2;
      fl := fl + doubled + 2;
      fs := Times(doubled, decay) / 32768;
      i := i + 1;
    }
    if fs == 0 {
      var ndiMax := (32768 - fl - s) / 2;
      var di := if val - i < ndiMax - 1 then val - i else ndiMax - 1;
      coded := Signed(i + di, value < 0);
      Capped(fs0, decay, fl, fs, i, value, s, di, coded);
      fl := fl + 2 * di + 1 + s;
      fs := if 1 < 32768 - fl then 1 else 32768 - fl;
    } else {
      AtValue(fs0, decay, fl, fs, i, val, value);
      fs := fs + 1;
      fl := fl + (if s == 0 then fs else 0);
    }
  }

  /** The value whose part the code points into. */
  method Decode(r: EcDec, fs0: nat, decay: nat) returns (value: int)
    requires r.Valid() && ValidModel(fs0, decay)
    modifies r
    ensures r.Valid() && r.error == old(r.error)
    ensures Codable(value, fs0, decay) && r.coder == Stepped(old(r.coder), value, fs0, decay)
  {
    var ftb := 15;
    TotalPow();
    var fm := r.DecodeBin(ftb);
    var fl, fs := 0, fs0;
    value := 0;
    if fm >= fs0 {
      value, fl, fs := Find(fm, fs0, decay);
    }
    SlotTaken(r.coder, value, fs0, decay, fl, fs, ftb);
    ShrRatio(r.rng, ftb);
    OpusRoundTrip.PointedPart(r.rng, r.ext, FT, fm, fl, fl + fs, r.val);
    r.Update(fl, if fl + fs < FT then fl + fs else FT, FT);
  }

  method Find(fm: nat, fs0: nat, decay: nat) returns (value: int, fl: nat, fs: nat)
    requires ValidModel(fs0, decay) && fs0 <= fm < FT
    ensures Codable(value, fs0, decay) && Slot(value, fs0, decay) == (fl, fl + fs)
    ensures fl <= fm < fl + fs
  {
    var val: int := 1;
    fl := fs0;
    fs := Freq1(fs0, decay) + 1;
    AtStart(fs0, decay);
    while fs > 1 && fm >= fl + 2 * fs
      invariant fs >= 1 && val >= 1 && fl <= fm && At(fs0, decay, fl, fs - 1, val)
      decreases fs
    {
      AtNext(fs0, decay, fl, fs - 1, val);
      DecayedLess(fs - 1, decay);
      fs := fs * 2;
      fl := fl + fs;
      fs := Times(fs - 2, decay) / 32768 + 1;
      val := val + 1;
    }
    ghost var start, i := fl, val;
    if fs <= 1 {
      var di := (fm - fl) / 2;
      val := val + di;
      fl := fl + 2 * di;
    }
    if fm < fl + fs {
      value := -val;
    } else {
      fl := fl + fs;
      value := val;
    }
    AtValue(fs0, decay, start, fs - 1, i, val, value);
  }

  /** A packet meets what one value says of it and no other: what is decoded is
      what was coded. */
  lemma SteppedUnique(data: seq<Byte>, c: Coder, v: int, w: int, fs0: nat, decay: nat)
    requires Ok(c) && ValidModel(fs0, decay) && Codable(v, fs0, decay) && Codable(w, fs0, decay)
    requires Fits(data, Stepped(c, v, fs0, decay)) && Fits(data, Stepped(c, w, fs0, decay))
    ensures v == w
  {
    if v != w {
      SlotsApart(v, w, fs0, decay);
      SteppedApart(data, c, v, w, fs0, decay, Slot(v, fs0, decay), Slot(w, fs0, decay));
    }
  }

  /** On a packet that meets what coding v says, v is decoded. */
  method DecodeCoded(r: EcDec, fs0: nat, decay: nat, ghost v: int) returns (value: int)
    requires r.Valid() && ValidModel(fs0, decay) && Codable(v, fs0, decay)
    requires Fits(r.buf, Stepped(r.coder, v, fs0, decay))
    modifies r
    ensures r.Valid() && r.error == old(r.error)
    ensures value == v && r.coder == Stepped(old(r.coder), v, fs0, decay)
  {
    ghost var c := r.coder;
    value := Decode(r, fs0, decay);
    SteppedUnique(r.buf, c, v, value, fs0, decay);
  }

  lemma SteppedApart(data: seq<Byte>, c: Coder, v: int, w: int, fs0: nat, decay: nat, a: (nat, nat), b: (nat, nat))
    requires Ok(c) && ValidModel(fs0, decay) && Codable(v, fs0, decay) && Codable(w, fs0, decay)
    requires a == Slot(v, fs0, decay) && b == Slot(w, fs0, decay)
    requires a.0 < a.1 && b.0 < b.1 && (a.1 <= b.0 || b.1 <= a.0)
    requires Fits(data, Stepped(c, v, fs0, decay))
    ensures !Fits(data, Stepped(c, w, fs0, decay))
  {
    TotalPow();
    Disjoint(data, c, a.0, a.1, b.0, b.1, 15);
  }

  lemma Disjoint(data: seq<Byte>, c: Coder, a: nat, b: nat, x: nat, y: nat, ftb: nat)
    requires Ok(c) && ftb <= 23 && a < b <= Pow2(ftb) && x < y <= Pow2(ftb) && (b <= x || y <= a)
    requires Fits(data, ShiftTaken(c, ftb, a, b))
    ensures !Fits(data, ShiftTaken(c, ftb, x, y))
  {
    ShrRatio(c.span.rng, ftb);
    var r, ft := Shr(c.span.rng, ftb), Pow2(ftb);
    if b <= x {
      TakenApart(data, c, r, ft, a, b, x, y);
    } else if Fits(data, Taken(c, r, ft, x, y)) {
      TakenApart(data, c, r, ft, x, y, a, b);
    }
  }

  // ---- when there is room

  /** The levels that still decay. */
  function Levels(f: nat, decay: nat): nat
    requires decay < 16384
    decreases f
  {
    if f == 0 then 0
    else
      DecayedLess(f, decay);
      1 + Levels(Decayed(f, decay), decay)
  }

  /** The reserve of 32 frequencies leaves room after fifteen decaying levels. */
  lemma RoomEnough(fs0: nat, decay: nat)
    requires 0 < fs0 <= FT - 32 && decay < 16384
    requires Levels(Freq1(fs0, decay), decay) <= 15
    ensures ValidModel(fs0, decay)
  {
    var ft, e := FT - 32 - fs0, 16384 - decay;
    TailBound(fs0, Freq1(fs0, decay), decay, ft);
  }

  /** Each level takes from a geometric budget, and two frequencies more. */
  lemma {:induction false} TailBound(fl: nat, f: nat, decay: nat, budget: nat)
    requires decay < 16384 && 32768 * f <= Times(budget, 16384 - decay)
    ensures TailFrom(fl, f, decay) <= fl + budget + 2 * Levels(f, decay)
    decreases f
  {
    if f > 0 {
      var e := 16384 - decay;
      DecayedLess(f, decay);
      BudgetLeft(f, decay, budget);
      TailBound(fl + 2 * f + 2, Decayed(f, decay), decay, budget - 2 * f);
    }
  }

  lemma BudgetLeft(f: nat, decay: nat, budget: nat)
    requires decay < 16384 && 32768 * f <= Times(budget, 16384 - decay)
    ensures 2 * f <= budget && 32768 * Decayed(f, decay) <= Times(budget - 2 * f, 16384 - decay)
  {
    var e := 16384 - decay;
    if budget < 2 * f {
      TimesSwap(budget, e);
      TimesSwap(2 * f, e);
      TimesMono(e, budget, 2 * f);
      TimesMono(2 * f, e, 16384);
    }
    TimesSwap(budget, e);
    TimesSwap(budget - 2 * f, e);
    TimesSplit(e, 2 * f, budget);
    TimesSwap(e, 2 * f);
    TimesSplit(2 * f, decay, 16384);
    assert Times(2 * f, 16384) == 32768 * f;
  }
}
