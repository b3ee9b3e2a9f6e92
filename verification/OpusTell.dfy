// What the count of spent eighths measures: eight times the logarithm of the range,
// for which the correction table stands in.

module OpusTell {
  import opened Bits
  import opened OpusModel

  function Square(x: int): int {
    x * x
  }

  function Pow8(x: int): int {
    Square(Square(Square(x)))
  }

  lemma SquareMono(x: nat, y: nat)
    requires x <= y
    ensures 0 <= Square(x) <= Square(y)
  {
    assert y * y - x * x == (y - x) * (y + x);
  }

  lemma Pow8Mono(x: nat, y: nat)
    requires x <= y
    ensures 0 <= Pow8(x) <= Pow8(y)
  {
    SquareMono(x, y);
    SquareMono(Square(x), Square(y));
    SquareMono(Square(Square(x)), Square(Square(y)));
  }

  lemma {:induction false} Pow2Times(a: nat, b: nat)
    ensures Pow2(a + b) == Pow2(a) * Pow2(b)
  {
    if b > 0 {
      Pow2Times(a, b - 1);
      assert a + b == a + (b - 1) + 1;
      assert Pow2(a + b) == 2 * Pow2(a + (b - 1));
    }
  }

  /** A power of two of eighths above the smallest value of sixteen bits. */
  lemma Scaled(n: nat, k: nat)
    requires n == 120 + k
    ensures Pow2(n) == Pow8(0x8000) * Pow2(k)
  {
    Pow2Values();
    var h := 15;
    Pow2Times(h, h);
    Pow2Times(2 * h, 2 * h);
    Pow2Times(4 * h, 4 * h);
    assert Pow2(8 * h) == Pow8(Pow2(h));
    Pow2Times(8 * h, k);
  }

  function SmallPow(k: nat): nat
    requires k <= 9
  {
    [1, 2, 4, 8, 16, 32, 64, 128, 256, 512][k]
  }

  lemma SmallPowIs(k: nat)
    requires k <= 9
    ensures Pow2(k) == SmallPow(k)
  {
    Pow2Values();
    assert Pow2(5) == 2 * Pow2(4) && Pow2(6) == 2 * Pow2(5) && Pow2(9) == 2 * Pow2(8);
  }

  lemma Pow8Of(x: int, a: int, b: int, c: int)
    requires a == x * x && b == a * a && c == b * b
    ensures Pow8(x) == c
  {
  }

  /** An entry of the table: two above it the power is reached, one below it is not. */
  ghost predicate Entry(t: nat, m: nat) {
    t >= 1 && Pow8(0x8000) * m <= Pow8(t + 2) && Pow8(t - 1) < Pow8(0x8000) * m
  }

  lemma FirstEntry()
    ensures Entry(35733, 2)
  {
    Pow8Of(32768, 1073741824, 1152921504606846976, 1329227995784915872903807060280344576);
    Pow8Of(35735, 1276990225, 1630704034745550625, 2659195648935417980033288234437890625);
    Pow8Of(35732, 1276775824, 1630156504750878976, 2657410229981602509450339044598808576);
  }

  lemma SecondEntry()
    ensures Entry(38967, 4)
  {
    Pow8Of(32768, 1073741824, 1152921504606846976, 1329227995784915872903807060280344576);
    Pow8Of(38969, 1518582961, 2306094209439527521, 5318070502810519422941636219716405441);
    Pow8Of(38966, 1518349156, 2305384159525912336, 5314796122992997218150754633156976896);
  }

  lemma ThirdEntry()
    ensures Entry(42495, 8)
  {
    Pow8Of(32768, 1073741824, 1152921504606846976, 1329227995784915872903807060280344576);
    Pow8Of(42497, 1805995009, 3261617972532910081, 10638151798749690979583144618431426561);
    Pow8Of(42494, 1805740036, 3260697077613281296, 10632145431955792987868057532023439616);
  }

  lemma FourthEntry()
    ensures Entry(46340, 16)
  {
    Pow8Of(32768, 1073741824, 1152921504606846976, 1329227995784915872903807060280344576);
    Pow8Of(46342, 2147580964, 4612103996935169296, 21271503278545364110910755244181135616);
    Pow8Of(46339, 2147302921, 4610909834535132241, 21260489502212800581321082503357682081);
  }

  lemma FifthEntry()
    ensures Entry(50535, 32)
  {
    Pow8Of(32768, 1073741824, 1152921504606846976, 1329227995784915872903807060280344576);
    Pow8Of(50537, 2553988369, 6522856588987280161, 42547658080494775549735823452304185921);
    Pow8Of(50534, 2553685156, 6521307875974744336, 42527456413250231454887018520564080896);
  }

  lemma SixthEntry()
    ensures Entry(55109, 64)
  {
    Pow8Of(32768, 1073741824, 1152921504606846976, 1329227995784915872903807060280344576);
    Pow8Of(55111, 3037222321, 9224719427180627041, 85095448510203675877341077141940415681);
    Pow8Of(55108, 3036891664, 9222710978872688896, 85058397799818831407797386485201698816);
  }

  lemma SeventhEntry()
    ensures Entry(60097, 128)
  {
    Pow8Of(32768, 1073741824, 1152921504606846976, 1329227995784915872903807060280344576);
    Pow8Of(60099, 3611889801, 13045747934567819601, 170191539172280531129583327767279799201);
    Pow8Of(60096, 3611529216, 13043143278021574656, 170123586570999387942763590201781518336);
  }

  lemma LastEntry()
    ensures Entry(65535, 256)
  {
    Pow8Of(32768, 1073741824, 1152921504606846976, 1329227995784915872903807060280344576);
    Pow8Of(65537, 4295098369, 18447869999386460161, 340323907514262993620990571134040145921);
    Pow8Of(65534, 4294705156, 18444492376972984336, 340199299044214529711585543190101360896);
  }

  /** Each entry of the table is the last value below an eighth of an octave, to
      within one. */
  lemma Table(b: nat)
    requires b < 8
    ensures Entry(TELL_CORRECTION[b], SmallPow(b + 1))
  {
    FirstEntry();
    SecondEntry();
    ThirdEntry();
    FourthEntry();
    FifthEntry();
    SixthEntry();
    SeventhEntry();
    LastEntry();
  }

  /** The eighths of an octave that are known from the four bits on top: from 8 + b
      sixteenths on at least b, and below 9 + b at most b + 1. */
  lemma Steps(b: nat)
    requires b < 8
    ensures Pow8(0x8000) * SmallPow(b) <= Pow8(4096 * (8 + b))
    ensures Pow8(4096 * (9 + b)) < Pow8(0x8000) * SmallPow(b + 2)
  {
    Pow8Of(32768, 1073741824, 1152921504606846976, 1329227995784915872903807060280344576);
    Pow8Of(36864, 1358954496, 1846757322198614016, 3410512607094195460639097831351648256);
    Pow8Of(40960, 1677721600, 2814749767106560000, 7922816251426433759354395033600000000);
    Pow8Of(45056, 2030043136, 4121075134020714496, 16983260260243849944758314018344534016);
    Pow8Of(49152, 2415919104, 5836665117072162816, 34066659688847004070788586416013049856);
    Pow8Of(53248, 2835349504, 8039206809833046016, 64628846131266020889769011552773472256);
    Pow8Of(57344, 3288334336, 10813142705316560896, 116924055165540753311641538160876322816);
    Pow8Of(61440, 3774873600, 14249670695976960000, 203053114943784499590328850841600000000);
    Pow8Of(65536, 4294967296, 18446744073709551616, 340282366920938463463374607431768211456);
  }

  // ---- the count

  /** The sixteen bits on top of the range. */
  function Top(rng: nat): (r: nat)
    requires BOT < rng <= TOP
  {
    RangeBits(rng);
    Shr(rng, BitLen(rng) - 16)
  }

  lemma TopBounds(rng: nat)
    requires BOT < rng <= TOP
    ensures 0x8000 <= Top(rng) < 0x10000 && 24 <= BitLen(rng) <= 32
    ensures var b := Shr(Top(rng), 12) - 8; 0 <= b < 8 && 4096 * (8 + b) <= Top(rng) < 4096 * (9 + b)
  {
    RangeBits(rng);
    var r := Top(rng);
    var q := Shr(r, 12);
    LowBounds(r, 12);
    TwelveBits(q);
    TwelveBits(1);
  }

  lemma TwelveBits(q: int)
    ensures Shl(q, 12) == 4096 * q
  {
    ShlByte(q, 4);
    ShlShl(q, 2, 2);
    assert Shl(q, 4) == 16 * q by {
      assert Shl(q, 4) == 2 * Shl(q, 3) == 4 * Shl(q, 2) == 8 * Shl(q, 1) == 16 * q;
    }
  }

  /** The eighths of an octave that the count takes the range to be in. */
  function Eighth(total: int, rng: nat): int
    requires BOT < rng <= TOP
  {
    8 * total - TellFrac(total, rng) - 8 * BitLen(rng)
  }

  lemma EighthIs(total: int, rng: nat)
    requires BOT < rng <= TOP
    ensures var b := Shr(Top(rng), 12) - 8;
      0 <= b < 8 && Eighth(total, rng) == b + (if Top(rng) > TELL_CORRECTION[b] then 1 else 0)
    ensures 0 <= Eighth(total, rng) < 8
  {
    TopBounds(rng);
  }

  /** The count measures the range: with r its sixteen bits on top and k the eighths,
      r is between the k-th and the next of the eighths of an octave, to within one. */
  lemma TellMeasures(total: int, rng: nat)
    requires BOT < rng <= TOP
    ensures var r, k := Top(rng), Eighth(total, rng);
      0 <= k < 8 && Pow2(120 + k) <= Pow8(r + 1) && Pow8(r - 1) < Pow2(121 + k)
  {
    var r, b, k := Top(rng), Shr(Top(rng), 12) - 8, Eighth(total, rng);
    TopBounds(rng);
    EighthIs(total, rng);
    Measured(r, b, TELL_CORRECTION[b], k);
    Scaled(120 + k, k);
    Scaled(121 + k, k + 1);
    SmallPowIs(k);
    SmallPowIs(k + 1);
  }

  lemma Measured(r: nat, b: nat, t: nat, k: nat)
    requires b < 8 && t == TELL_CORRECTION[b] && k == b + (if r > t then 1 else 0) && k < 8
    requires 0x8000 <= r && 4096 * (8 + b) <= r < 4096 * (9 + b)
    ensures Pow8(0x8000) * SmallPow(k) <= Pow8(r + 1) && Pow8(r - 1) < Pow8(0x8000) * SmallPow(k + 1)
  {
    Table(b);
    Steps(b);
    if r > t {
      Pow8Mono(t + 2, r + 1);
      Pow8Mono(r - 1, 4096 * (9 + b));
    } else {
      Pow8Mono(4096 * (8 + b), r + 1);
      Pow8Mono(r - 1, t - 1);
    }
  }

  /** So it is less than eight eighths below the count in whole bits, and not above. */
  lemma TellsClose(total: int, rng: nat)
    requires BOT < rng <= TOP
    ensures 8 * Tell(total, rng) - 8 < TellFrac(total, rng) <= 8 * Tell(total, rng)
  {
    EighthIs(total, rng);
  }

  /** A larger range never counts as more spent. */
  lemma TellFracFalls(total: int, rng: nat, more: nat)
    requires BOT < rng <= more <= TOP
    ensures TellFrac(total, more) <= TellFrac(total, rng)
  {
    EighthIs(total, rng);
    EighthIs(total, more);
    BitLenMono(rng, more);
    if BitLen(rng) == BitLen(more) {
      TopBounds(rng);
      TopBounds(more);
      ShrGrows(rng, more, BitLen(rng) - 16);
    }
  }

  lemma {:induction false} BitLenMono(x: nat, y: nat)
    requires x <= y
    ensures BitLen(x) <= BitLen(y)
  {
    if x > 0 {
      BitLenMono(x / 2, y / 2);
    }
  }

  lemma {:induction false} ShrGrows(x: int, y: int, n: nat)
    requires x <= y
    ensures Shr(x, n) <= Shr(y, n)
  {
    if n > 0 {
      ShrGrows(x, y, n - 1);
    }
  }

  /** Both counts after every call of a run hold to that. */
  lemma MarkMeasures(c: Coder)
    requires Ok(c)
    ensures 8 * Mark(c).0 - 8 < Mark(c).1 <= 8 * Mark(c).0
  {
    TellsClose(c.span.t + 2 + c.m, c.span.rng);
  }
}
