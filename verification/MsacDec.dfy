// The AV1 range decoder (zown/av1.py): a 64-bit window that holds the distance
// of the code from the top of the interval, refilled a byte at a time.

module MsacDecoder {
  import opened Bits
  import opened MsacModel

  /** The code that a decoder reads: the data, zero bits up to `edge`, and ones
      from there on. */
  function Seen(data: seq<Byte>, edge: nat, k: nat): int {
    if k <= edge then Code(data, k) else Shl(Code(data, edge) + 1, k - edge) - 1
  }

  ghost predicate Sees(data: seq<Byte>, edge: nat, iv: Interval) {
    Within(Seen(data, edge, 15 + iv.t), iv)
  }

  /** The symbol that this code stands for. */
  function SeenSymbol(data: seq<Byte>, edge: nat, iv: Interval, cdf: seq<nat>): (s: nat)
    requires Ok(iv) && ValidCdf(cdf) && Sees(data, edge, iv)
    ensures s < |cdf|
  {
    Picked(Seen(data, edge, 15 + iv.t), iv, cdf)
  }

  /** The window `dif`: the top of the interval, less the code, less one. Its
      bits are 0 where the code has not been looked at, past its first `edge`. */
  ghost predicate Tracks(data: seq<Byte>, dif: int, t: int, edge: nat, top: int) {
    && t >= 0 && edge <= 63 + t
    && dif + Shl(1 + Code(data, edge), 63 + t - edge) == Shl(top, 48)
  }

  /** The count is compared as a word: after so many bits past the end a negative
      one looks like a small one again. */
  const FAR: nat := 0x1_0000_0000 - 30

  /** A word with its k low bits set. */
  function Filled(dif: int, k: nat): int {
    if k < 64 then dif - Low(dif, k) + Pow2(k) - 1 else Pow2(64) - 1
  }

  /** How much of the code the window holds. */
  ghost predicate Placed(size: nat, pos: nat, cnt: int, starved: bool, edge: nat) {
    if !starved then edge == 8 * pos
    else if cnt >= 0 then 8 * size <= edge <= 8 * size + 48
    else 8 * size + 49 <= edge <= 8 * size + 63
  }

  /** The window stands for the code that is read, which lies in the interval. */
  ghost predicate Follows(data: seq<Byte>, pos: nat, dif: int, cnt: int, starved: bool, edge: nat, iv: Interval) {
    && Placed(|data|, pos, cnt, starved, edge)
    && Tracks(data, dif, iv.t, edge, iv.v + iv.rng) && Sees(data, edge, iv)
  }

  /** `size` of the interval, `off` from its low end: `dif0` is the window less what
      is above, and a window that stands for the code finds it in that part. */
  ghost predicate Part(data: seq<Byte>, dif: int, dif0: int, edge: nat, iv: Interval, off: int, size: int, near: bool) {
    && 0 <= off && 0 < size && off + size <= iv.rng
    && 0 <= dif0 == dif - Shl(iv.rng - off - size, 48)
    && (near ==> iv.v + off <= Seen(data, edge, 15 + iv.t) < iv.v + off + size)
  }

  /** So it does while bytes are wanted: `c` says where the next one goes. */
  ghost predicate Wants(data: seq<Byte>, pos: nat, dif: int, c: int, starved: bool, edge: nat, iv: Interval) {
    && -8 <= c <= 55 && iv.t == 8 * pos + c - 55
    && (if starved then edge >= 8 * |data| else edge == 8 * pos)
    && Tracks(data, dif, iv.t, edge, iv.v + iv.rng)
    && Low(Shl(iv.v + iv.rng, 48), c + 8) == 0 && Holds(data, iv)
  }

  class Msac {
    const buf: seq<Byte>
    var pos: nat
    var dif: int
    var rng: nat
    var cnt: int
    var starved: bool
    /** The low end of the interval reached, which the window leaves implicit. */
    ghost var v: nat
    ghost var edge: nat

    ghost function View(): Interval
      reads this
      requires 8 * pos - cnt - 15 >= 0
    {
      Interval(v, rng, 8 * pos - cnt - 15)
    }

    /** Near enough to the data for the count to be a count. */
    ghost predicate Near()
      reads this
    {
      8 * pos - cnt - 15 <= 8 * |buf| + FAR
    }

    /** Past the end for good: no byte and no zero bit will come any more. */
    ghost predicate Frozen()
      reads this
    {
      starved && cnt < 0
    }

    ghost predicate Valid()
      reads this
    {
      && pos <= |buf| && 8 * pos - cnt - 15 >= 0 && 0 <= dif && Ok(View())
      && (if starved then pos == |buf| else 0 <= cnt)
      && (Near() ==> Follows(buf, pos, dif, cnt, starved, edge, View()))
    }

    constructor (data: seq<Byte>)
      ensures buf == data && Valid() && View() == START
    {
      buf := data;
      pos, dif, rng, cnt, starved := 0, 0, 0x8000, -15, false;
      v, edge := 0, 0;
      new;
      StartOk();
      InitWants(buf, 40 - cnt, edge);
      Refill();
    }

    /** Reads whole bytes while they fit; past the end every bit of the code is 0.
        The position stays within the data wherever it was called. */
    method Refill()
      requires pos <= |buf| && cnt < 0 && 8 * pos - cnt - 15 >= 0 && 0 <= dif && Ok(View())
      requires starved ==> pos == |buf|
      requires cnt < -15 ==> starved && !Near()
      requires cnt >= -15 ==> Wants(buf, pos, dif, 40 - cnt, starved, edge, View())
      modifies this`pos, this`dif, this`cnt, this`starved, this`edge
      ensures Valid() && View() == old(View())
      ensures old(pos) <= pos && (pos == old(pos) ==> cnt == old(cnt) && starved)
    {
      var c := 64 - cnt - 24;
      ghost var near, iv := cnt >= -15, View();
      while true
        invariant pos <= |buf| && iv.t == 8 * pos + c - 55 && 0 <= dif
        invariant c >= 0 && c == 40 - cnt + 8 * (old(pos) - pos)
        invariant near ==> Wants(buf, pos, dif, c, starved, edge, iv)
        invariant starved == old(starved) && (starved ==> pos == |buf|) && (!near ==> starved)
        invariant old(pos) <= pos
        decreases c
      {
        if pos >= |buf| {
          FilledNat(dif, c + 8);
          if near {
            Starve(buf, pos, dif, c, starved, edge, iv);
          }
          dif := Filled(dif, c + 8);
          starved := true;
          edge := 63 + iv.t;
          break;
        }
        NextByte(buf, pos, dif, c, starved, edge, iv);
        dif := dif + Shl(255 - buf[pos], c);
        pos := pos + 1;
        c := c - 8;
        edge := 8 * pos;
        if c < 0 {
          Full(buf, pos, dif, c, edge, iv);
          break;
        }
      }
      cnt := 64 - c - 24;
      assert View() == iv;
      assert near ==> Follows(buf, pos, dif, cnt, starved, edge, iv);
    }

    /** Keeps `size` of the interval, `off` from its low end, and renormalises. */
    method Norm(dif0: int, size: nat, ghost off: nat)
      requires Valid() && Part(buf, dif, dif0, edge, View(), off, size, Near())
      modifies this
      ensures Valid() && View() == Narrow(old(View()), off, size)
      ensures old(pos) <= pos && (old(Frozen()) ==> Frozen() && (Near() ==> edge == old(edge)))
    {
      var d := Lift(size);
      ghost var iv, iv', near := View(), Narrow(View(), off, size), Near();
      NarrowOk(iv, off, size);
      LowBounds(Shl(dif0, d), 64);
      var c := cnt;
      var dif1 := Low(Shl(dif0, d), 64);
      if near {
        NormReady(buf, pos, dif, cnt, starved, edge, iv, off, size, d, dif1, iv');
      }
      dif, rng, cnt := dif1, Shl(size, d), c - d;
      v := iv'.v;
      assert View() == iv';
      WordLess(c, d);
      if c % 0x1_0000_0000 < d {
        Refill();
      }
    }

    /** One bit whose probability of being 1 is f / 32768. */
    method Bool(f: nat) returns (bit: nat)
      requires Valid() && f < 32768
      modifies this
      ensures Valid() && bit < 2
      ensures View() == Coded(old(View()), BitCdf(f), bit)
      ensures old(Near()) ==> bit == SeenSymbol(buf, old(edge), old(View()), BitCdf(f))
      ensures old(Frozen()) ==> Frozen() && (Near() ==> edge == old(edge))
    {
      var r := rng;
      var u := BoolCut(r, f) + 4;
      CutDescends(r, BitCdf(f), 0);
      CutDescends(r, BitCdf(f), 1);
      if Near() {
        WindowGap(buf, dif, View(), edge);
        ShrLess(dif, 48, u);
      }
      ShlZero(48);
      var ret := if dif >= Shl(u, 48) then 1 else 0;
      bit := 1 - ret;
      if ret == 1 {
        Norm(dif - Shl(u, 48), r - u, 0);
      } else {
        Norm(dif, u, r - u);
      }
    }

    method Equi() returns (bit: nat)
      requires Valid()
      modifies this
      ensures Valid() && bit < 2
      ensures View() == Coded(old(View()), BitCdf(16384), bit)
      ensures old(Near()) ==> bit == SeenSymbol(buf, old(edge), old(View()), BitCdf(16384))
      ensures old(Frozen()) ==> Frozen() && (Near() ==> edge == old(edge))
    {
      bit := Bool(16384);
    }

    method AdaptBool(cdf: array<nat>) returns (bit: nat)
      requires Valid() && cdf.Length == 2 && ValidCdf(cdf[..])
      modifies this, cdf
      ensures Valid() && bit < 2
      ensures View() == Coded(old(View()), old(cdf[..]), bit)
      ensures old(Near()) ==> bit == SeenSymbol(buf, old(edge), old(View()), old(cdf[..]))
      ensures old(Frozen()) ==> Frozen() && (Near() ==> edge == old(edge))
      ensures cdf[..] == Adapted(old(cdf[..]), bit)
    {
      ghost var iv, was := View(), cdf[..];
      bit := Bool(cdf[0]);
      SameBit(iv, was, bit);
      if old(Near()) {
        SameSymbol(buf, old(edge), iv, was);
      }
      AdaptBit(cdf, bit);
    }

    method Symbol(cdf: array<nat>, n: nat) returns (val: nat)
      requires Valid() && cdf.Length == n + 1 && ValidCdf(cdf[..])
      modifies this, cdf
      ensures Valid() && val <= n
      ensures View() == Coded(old(View()), old(cdf[..]), val)
      ensures old(Near()) ==> val == SeenSymbol(buf, old(edge), old(View()), old(cdf[..]))
      ensures old(Frozen()) ==> Frozen() && (Near() ==> edge == old(edge))
      ensures cdf[..] == Adapted(old(cdf[..]), val)
    {
      ghost var iv, was := View(), cdf[..];
      WindowNat(dif);
      var u, w;
      val, u, w := Search(cdf, n, Shr(dif, 48), rng);
      var dif0, size := dif - Shl(w, 48), u - w;
      ghost var off := rng - u;
      SymbolPart(buf, pos, dif, cnt, starved, edge, iv, was, val, u, w, off, size, dif0, Near());
      Norm(dif0, size, off);
      assert View() == Coded(iv, was, val);
      Adapt(cdf, n, val);
    }
  }

  lemma WindowNat(dif: nat)
    ensures 0 <= Shr(dif, 48)
  {
    ShlZero(48);
    ShrLess(dif, 48, 0);
  }

  /** The search finds a symbol that can be taken, and the one whose part holds
      the code where the window stands for it. */
  lemma SymbolPart(data: seq<Byte>, pos: nat, dif: nat, cnt: int, starved: bool, edge: nat, iv: Interval,
      cdf: seq<nat>, s: nat, u: nat, w: nat, off: int, size: int, dif0: int,
      near: bool)
    requires Ok(iv) && ValidCdf(cdf) && 0 <= Shr(dif, 48) && s == Find(iv.rng, cdf, Shr(dif, 48), 0)
    requires u == Cut(iv.rng, cdf, s as int - 1) && w == Cut(iv.rng, cdf, s)
    requires near ==> Follows(data, pos, dif, cnt, starved, edge, iv)
    requires off == iv.rng - u && size == u - w && dif0 == dif - Shl(w, 48)
    ensures Part(data, dif, dif0, edge, iv, off, size, near) && Coded(iv, cdf, s) == Narrow(iv, off, size)
    ensures near ==> s == SeenSymbol(data, edge, iv, cdf)
  {
    ShrLess(dif, 48, w);
    CutDescends(iv.rng, cdf, s);
    if near {
      WindowGap(data, dif, iv, edge);
      PickedPart(Seen(data, edge, 15 + iv.t), iv, cdf, s);
    }
  }

  /** A count compared as a word. */
  lemma WordLess(c: int, d: nat)
    requires d < 16 && c <= 48
    ensures c >= 0 ==> c % 0x1_0000_0000 == c
    ensures -0x1_0000_0000 + 15 <= c < 0 ==> c % 0x1_0000_0000 >= d
  {
  }

  /** Walks the boundaries down from the top until c is not below one. */
  method Search(cdf: array<nat>, n: nat, c: nat, r: nat) returns (val: nat, u: nat, w: nat)
    requires cdf.Length == n + 1 && ValidCdf(cdf[..]) && 0x8000 <= r < 0x10000
    ensures val == Find(r, cdf[..], c, 0)
    ensures u == Cut(r, cdf[..], val as int - 1) && w == Cut(r, cdf[..], val) && w < u <= r
  {
    u := r;
    CutDescends(r, cdf[..], 0);
    val := 0;
    w := BoolCut(r, cdf[0]) + 4 * n;
    while c < w
      invariant val <= n && u == Cut(r, cdf[..], val as int - 1) && w == Cut(r, cdf[..], val)
      invariant Find(r, cdf[..], c, 0) == Find(r, cdf[..], c, val)
      decreases n - val
    {
      CutDescends(r, cdf[..], n);
      val := val + 1;
      u := w;
      w := BoolCut(r, cdf[val]) + 4 * (n - val);
    }
    CutDescends(r, cdf[..], val);
  }

  lemma OnesBelow(x: int, n: nat)
    ensures Shr(Shl(x + 1, n) - 1, n) == x
  {
    Pow2Pos(n);
    ShlSum(x, 1, n);
    ShrUnique(Shl(x + 1, n) - 1, n, x);
  }

  /** A longer prefix of the code that is read refines a shorter one. */
  lemma SeenPrefix(data: seq<Byte>, edge: nat, k: nat, m: nat)
    ensures Seen(data, edge, k) == Shr(Seen(data, edge, k + m), m)
  {
    if k + m <= edge {
      CodePrefix(data, k, m);
    } else if k <= edge {
      var x := Code(data, edge);
      CodePrefix(data, k, edge - k);
      OnesBelow(x, k + m - edge);
      ShrShr(Shl(x + 1, k + m - edge) - 1, k + m - edge, edge - k);
    } else {
      var x := Shl(Code(data, edge) + 1, k - edge);
      ShlShl(Code(data, edge) + 1, k - edge, m);
      OnesBelow(x - 1, m);
    }
  }

  lemma FilledNat(dif: int, k: nat)
    requires 0 <= dif
    ensures 0 <= Filled(dif, k)
  {
    Pow2Pos(64);
    Pow2Pos(k);
    ShlZero(k);
    ShrLess(dif, k, 0);
    ShlLess(0, Shr(dif, k), k);
  }

  lemma NormTracks(data: seq<Byte>, dif: int, t: nat, edge: nat, top: int, cut: int, d: nat)
    requires Tracks(data, dif, t, edge, top)
    ensures Tracks(data, Shl(dif - Shl(cut, 48), d), t + d, edge, Shl(top - cut, d))
  {
    var x, blind := 1 + Code(data, edge), 63 + t - edge;
    assert 63 + (t + d) - edge == blind + d;
    ShlSum(top - cut, cut, 48);
    ShlSum(dif - Shl(cut, 48), Shl(x, blind), d);
    ShlShl(x, blind, d);
    ShlShl(top - cut, 48, d);
    ShlShl(top - cut, d, 48);
  }

  /** The window's high bits are the distance of the code from the top. */
  lemma WindowGap(data: seq<Byte>, dif: int, iv: Interval, edge: nat)
    requires Tracks(data, dif, iv.t, edge, iv.v + iv.rng)
    ensures Shr(dif, 48) == iv.v + iv.rng - 1 - Seen(data, edge, 15 + iv.t)
  {
    var k, blind, top := 15 + iv.t, 63 + iv.t - edge, iv.v + iv.rng;
    if k <= edge {
      GapAhead(data, dif, k, edge, edge - k, blind, top);
    } else {
      var x := Shl(1 + Code(data, edge), k - edge);
      ShlShl(1 + Code(data, edge), k - edge, 48);
      assert k - edge + 48 == blind;
      ShlSum(top - x, x, 48);
      LowShl(top - x, 48);
    }
  }

  lemma GapAhead(data: seq<Byte>, dif: int, k: nat, edge: nat, m: nat, blind: nat, top: int)
    requires edge == k + m && blind + m == 48
    requires dif + Shl(1 + Code(data, edge), blind) == Shl(top, 48)
    ensures Shr(dif, 48) == top - 1 - Code(data, k)
  {
    var x := Code(data, edge);
    CodePrefix(data, k, m);
    LowBounds(x, m);
    var q, l := Shr(x, m), Low(x, m);
    ShlSum(Shl(q, m), 1 + l, blind);
    ShlShl(q, m, blind);
    ShlLess(0, 1 + l, blind);
    ShlZero(blind);
    ShlLess(Pow2(m), 1 + l, blind);
    Pow2Shl(m, blind);
    var g := top - 1 - q;
    ShlSum(g, 1, 48);
    ShlSum(g + 1, q, 48);
    ShrUnique(dif, 48, g);
  }

  lemma NormFits(data: seq<Byte>, dif: int, dif0: int, iv: Interval, edge: nat, off: nat, size: nat, d: nat)
    requires 0 < size < 0x10000 && off + size <= iv.rng && d == Lift(size)
    requires Tracks(data, dif, iv.t, edge, iv.v + iv.rng) && dif0 == dif - Shl(iv.rng - off - size, 48)
    requires iv.v + off <= Seen(data, edge, 15 + iv.t) < iv.v + off + size
    ensures Low(Shl(dif0, d), 64) == Shl(dif0, d)
  {
    var cut := iv.rng - off - size;
    WindowGap(data, dif, iv, edge);
    ShrLess(dif, 48, cut);
    ShrLess(dif, 48, cut + size);
    ShlSum(cut, size, 48);
    ShlNat(dif0, d);
    ShlLess(dif0, Shl(size, 48), d);
    ShlShl(size, 48, d);
    ShlShl(size, d, 48);
    ShlLess(Shl(size, d), Pow2(16), 48);
    Pow2Values();
    Pow2Shl(16, 48);
    LowSmall(Shl(dif0, d), 64);
  }

  /** Renormalising keeps the window in step, and aligned when it runs low. */
  lemma NormReady(data: seq<Byte>, pos: nat, dif: int, cnt: int, starved: bool, edge: nat, iv: Interval,
      off: nat, size: nat, d: nat, dif': int, iv': Interval)
    requires Ok(iv) && 0 < size && off + size <= iv.rng && d == Lift(size) && iv' == Narrow(iv, off, size)
    requires pos <= |data| && (if starved then pos == |data| else 0 <= cnt)
    requires iv.t == 8 * pos - cnt - 15 && Follows(data, pos, dif, cnt, starved, edge, iv)
    requires iv.v + off <= Seen(data, edge, 15 + iv.t) < iv.v + off + size
    requires dif' == Low(Shl(dif - Shl(iv.rng - off - size, 48), d), 64)
    ensures if 0 <= cnt < d then Wants(data, pos, dif', 40 - (cnt - d), starved, edge, iv')
      else Follows(data, pos, dif', cnt - d, starved, edge, iv')
  {
    var cut := iv.rng - off - size;
    ShlSum(iv.v + off, size, d);
    NormTracks(data, dif, iv.t, edge, iv.v + iv.rng, cut, d);
    NormFits(data, dif, dif - Shl(cut, 48), iv, edge, off, size, d);
    NormSees(data, iv, edge, off, size, d);
    if 0 <= cnt < d {
      Aligned(iv.v + off + size, d, cnt - d);
    }
  }

  lemma NormSees(data: seq<Byte>, iv: Interval, edge: nat, off: nat, size: nat, d: nat)
    requires 0 < size < 0x10000 && d == Lift(size)
    requires iv.v + off <= Seen(data, edge, 15 + iv.t) < iv.v + off + size
    ensures Sees(data, edge, Narrow(iv, off, size))
    ensures 15 + iv.t <= edge ==> Holds(data, Narrow(iv, off, size))
  {
    var k := 15 + iv.t;
    SeenPrefix(data, edge, k, d);
    assert 15 + (iv.t + d) == k + d;
    NarrowWithin(Seen(data, edge, k), Seen(data, edge, k + d), iv, off, size);
    NarrowHolds(data, iv, off, size);
  }

  lemma Aligned(top: int, d: nat, cnt: int)
    requires cnt < 0 && -cnt <= d
    ensures Low(Shl(Shl(top, d), 48), 48 - cnt) == 0
  {
    ShlShl(top, d, 48);
    LowShl(top, d + 48);
    LowFewer(Shl(top, d + 48), d + 48, 48 - cnt);
  }

  lemma SameSymbol(data: seq<Byte>, edge: nat, iv: Interval, cdf: seq<nat>)
    requires Ok(iv) && |cdf| == 2 && ValidCdf(cdf) && Sees(data, edge, iv)
    ensures SeenSymbol(data, edge, iv, cdf) == SeenSymbol(data, edge, iv, BitCdf(cdf[0]))
  {
    var x, s := Seen(data, edge, 15 + iv.t), SeenSymbol(data, edge, iv, cdf);
    PickedPart(x, iv, cdf, s);
    PickedPart(x, iv, BitCdf(cdf[0]), s);
  }

  /** Past the end: the missing bits of the code are 0, so those of the window are 1. */
  lemma Starve(data: seq<Byte>, pos: nat, dif: int, c: nat, starved: bool, edge: nat, iv: Interval)
    requires Wants(data, pos, dif, c, starved, edge, iv) && pos == |data|
    ensures Follows(data, pos, Filled(dif, c + 8), 40 - c, true, 63 + iv.t, iv)
  {
    StarveTracks(data, dif, iv.t, edge, c + 8, iv.v + iv.rng);
  }

  lemma StarveTracks(data: seq<Byte>, dif: int, t: nat, edge: nat, k: nat, top: int)
    requires Tracks(data, dif, t, edge, top) && k < 64
    requires edge >= 63 + t - k == 8 * |data| && Low(Shl(top, 48), k) == 0
    ensures Tracks(data, Filled(dif, k), t, 63 + t, top)
  {
    var x, blind := Be(data), 63 + t - edge;
    ShlShl(x, k - blind, blind);
    assert Code(data, edge) == Shl(x, k - blind);
    assert Code(data, 63 + t) == Shl(x, k);
    ShlSum(1, Shl(x, k - blind), blind);
    assert dif == Shl(top, 48) - Shl(x, k) - Pow2(blind);
    var q := Shr(Shl(top, 48), k);
    ShlSum(q - x, x, k);
    LowShl(q - x, k);
    Pow2Mono(blind, k);
    if blind == k {
      ShlSum(q - x - 1, 1, k);
      LowShl(q - x - 1, k);
    } else {
      Pow2Pos(k - 1);
      Pow2Mono(blind, k - 1);
      LowMinus(Shl(q - x, k), Pow2(blind), k);
    }
  }

  lemma NextByte(data: seq<Byte>, pos: nat, dif: int, c: nat, starved: bool, edge: nat, iv: Interval)
    requires Wants(data, pos, dif, c, starved, edge, iv) && pos < |data| && !starved
    ensures 0 <= Shl(255 - data[pos], c) && Low(dif, c + 8) == 0
    ensures Wants(data, pos + 1, dif + Shl(255 - data[pos], c), c - 8, false, 8 * (pos + 1), iv)
  {
    ShlNat(255 - data[pos], c);
    LowFewer(Shl(iv.v + iv.rng, 48), c + 8, c);
    ByteTracks(data, dif, iv.t, pos, c, iv.v + iv.rng);
  }

  /** A byte of the code lands, inverted, in bits that are still 0. */
  lemma ByteTracks(data: seq<Byte>, dif: int, t: nat, pos: nat, c: nat, top: int)
    requires Tracks(data, dif, t, 8 * pos, top) && Low(Shl(top, 48), c + 8) == 0
    requires pos < |data| && 63 + t - (c + 8) == 8 * pos
    ensures Low(dif, c + 8) == 0
    ensures Tracks(data, dif + Shl(255 - data[pos], c), t, 8 * (pos + 1), top)
  {
    var x := Code(data, 8 * pos);
    CodeNextByte(data, pos);
    assert 63 + t - c == 8 * (pos + 1);
    ShlSum(255 - data[pos], 1 + (256 * x + data[pos]), c);
    ShlShl(1 + x, 8, c);
    ShlByte(1 + x, 0);
    var q := Shr(Shl(top, 48), c + 8);
    ShlSum(q - (1 + x), 1 + x, c + 8);
    LowShl(q - (1 + x), c + 8);
  }

  /** No whole byte more fits. */
  lemma Full(data: seq<Byte>, pos: nat, dif: int, c: int, edge: nat, iv: Interval)
    requires Wants(data, pos, dif, c, false, edge, iv) && c < 0
    ensures Follows(data, pos, dif, 40 - c, false, edge, iv)
  {
  }

  lemma InitWants(data: seq<Byte>, c: int, edge: nat)
    requires c == 55 && edge == 0
    ensures Wants(data, 0, 0, c, false, edge, START)
  {
    EmptyCode(data);
    TopBit(15, 48);
    Pow2Values();
    CodePrefix(data, 0, 15);
    CodeNat(data, 15);
    ShrLess(Code(data, 15), 15, 1);
  }

  lemma EmptyCode(data: seq<Byte>)
    ensures Code(data, 0) == 0
  {
    BeBound(data);
    LowSmall(Be(data), 8 * |data|);
  }

  lemma TopBit(n: nat, m: nat)
    ensures Shl(1, n + m) == Shl(Pow2(n), m)
    ensures Low(Shl(Pow2(n), m), n + m) == 0
  {
    Pow2Shl(n, m);
    LowShl(1, n + m);
  }
}
