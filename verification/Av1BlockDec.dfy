// The decoder of one block. It is told nothing but the contexts, and reads back
// the values whose calls come next, asking the same distributions in turn.

module Av1BlockDec {
  import opened Bits
  import opened MsacModel
  import opened Av1Channel
  import opened Av1Syntax

  // ---- bits

  lemma {:induction false} HeadBit(n: nat, x: nat)
    requires n > 0
    ensures Shr(x, n - 1) >= 0
    ensures BitOps(n, x) == [Equi(Shr(x, n - 1) % 2)] + BitOps(n - 1, x)
  {
    ShrNat(x, n - 1);
    if n > 1 {
      HeadBit(n - 1, x / 2);
      ShrFirst(x, n - 2);
    }
  }

  lemma {:induction false} ShrFirst(x: nat, n: nat)
    ensures Shr(x / 2, n) == Shr(x, n + 1)
  {
    if n > 0 {
      ShrFirst(x, n - 1);
    }
  }

  method Bools(r: Reader, n: nat, start: nat, ghost x: nat, ghost tail: seq<Op>) returns (v: nat)
    requires r.Valid() && r.rest == BitOps(n, x) + tail
    modifies r, r.ms, r.cdfs
    ensures r.Valid() && r.rest == tail
    ensures v == Shl(start, n) + Low(x, n)
  {
    v := start;
    ghost var m, first := n, Shr(x, n);
    ghost var h := first;
    for i := 0 to n
      invariant r.Valid() && m == n - i && r.rest == BitOps(m, x) + tail
      invariant first == Shr(x, m) && Joined(v, start, h, first, i)
    {
      ghost var k := m;
      m := m - 1;
      var bit := NextBit(r, k, m, x, first, tail);
      Join(v, start, h, first, i, bit);
      v := 2 * v + bit;
      first := 2 * first + bit;
    }
    AllBits(m, x, tail);
    JoinedAll(v, start, h, first, n, x);
  }

  lemma AllBits(m: nat, x: nat, tail: seq<Op>)
    requires m == 0
    ensures BitOps(m, x) + tail == tail && Shr(x, m) == x
  {
  }

  lemma JoinedAll(v: int, start: int, h: int, first: int, n: nat, x: nat)
    requires Joined(v, start, h, first, n) && h == Shr(x, n) && first == x
    ensures v == Shl(start, n) + Low(x, n)
  {
  }

  /** The first i bits of a number whose bits above them are h: they follow `start`. */
  ghost predicate Joined(v: int, start: int, h: int, first: int, i: nat) {
    v == Shl(start, i) + first - Shl(h, i)
  }

  lemma Join(v: int, start: int, h: int, first: int, i: nat, bit: int)
    requires Joined(v, start, h, first, i)
    ensures Joined(2 * v + bit, start, h, 2 * first + bit, i + 1)
  {
  }

  /** One of those bits, and what the others are. */
  method NextBit(r: Reader, ghost k: nat, ghost m: nat, ghost x: nat, ghost first: int, ghost tail: seq<Op>)
    returns (bit: nat)
    requires r.Valid() && r.rest == BitOps(k, x) + tail && k == m + 1 && first == Shr(x, k)
    modifies r, r.ms, r.cdfs
    ensures r.Valid() && r.rest == BitOps(m, x) + tail && 2 * first + bit == Shr(x, m)
  {
    ghost var low := Shr(x, m) % 2;
    HeadBit(k, x);
    TakeFirst(Equi(low), BitOps(m, x), tail);
    Doubled(x, m);
    bit := r.Equi();
  }

  lemma Doubled(x: nat, m: nat)
    ensures Shr(x, m) == 2 * Shr(x, m + 1) + Shr(x, m) % 2
  {
    var h := Shr(x, m);
    assert Shr(x, m + 1) == h / 2;
  }

  lemma TakeFirst(op: Op, ops: seq<Op>, tail: seq<Op>)
    ensures var all := ([op] + ops) + tail; all != [] && all[0] == op && all[1..] == ops + tail
  {
  }

  method Golomb(r: Reader, ghost x: nat, ghost tail: seq<Op>) returns (val: nat)
    requires r.Valid() && r.rest == GolombOps(x) + tail && x < 0x10_0000
    modifies r, r.ms, r.cdfs
    ensures r.Valid() && r.rest == tail && val == x
  {
    ghost var n := GolombLength(x);
    ghost var body := BitOps(n, x + 1) + tail;
    GolombShape(x, n, tail);
    var length := 0;
    var bit := ZeroOrOne(r, n, body);
    while bit == 0 && length < 32
      invariant length <= n && r.Valid()
      invariant bit == (if length < n then 0 else 1)
      invariant r.rest == if length < n then Zeros(n - length - 1) + ([Equi(1)] + body) else body
      decreases n - length
    {
      length := length + 1;
      bit := ZeroOrOne(r, n - length, body);
    }
    val := Bools(r, length, 1, x + 1, tail);
    GolombValue(x, n);
    val := val - 1;
  }

  /** The next bit of a run of zeros that a one ends. */
  method ZeroOrOne(r: Reader, ghost left: nat, ghost body: seq<Op>) returns (bit: nat)
    requires r.Valid() && r.rest == Zeros(left) + ([Equi(1)] + body)
    modifies r, r.ms, r.cdfs
    ensures r.Valid() && bit == if left > 0 then 0 else 1
    ensures r.rest == if left > 0 then Zeros(left - 1) + ([Equi(1)] + body) else body
  {
    bit := r.Equi();
  }

  ghost function GolombLength(x: nat): (n: nat)
    ensures n == BitLen(x + 1) - 1
  {
    BitLenBounds(x + 1);
    BitLen(x + 1) - 1
  }

  lemma GolombShape(x: nat, n: nat, tail: seq<Op>)
    requires n == GolombLength(x) && x < 0x10_0000
    ensures n < 32
    ensures GolombOps(x) + tail == Zeros(n) + ([Equi(1)] + (BitOps(n, x + 1) + tail))
  {
    BitLenBounds(x + 1);
    Pow2Words();
    if n >= 32 {
      Pow2Mono(24, n);
    }
  }

  lemma GolombValue(x: nat, n: nat)
    requires n == GolombLength(x)
    ensures Shl(1, n) + Low(x + 1, n) == x + 1
  {
    BitLenBounds(x + 1);
    ShlDouble(1, n);
    ShrUnique(x + 1, n, 1);
  }

  // ---- tokens

  /** A token, three values at a time. */
  method HiTok(r: Reader, table: nat, ghost want: nat, ghost tail: seq<Op>) returns (tok: nat)
    requires r.Valid() && 3 <= want <= 15 && r.rest == HiTokOps(table, want) + tail
    modifies r, r.ms, r.cdfs
    ensures r.Valid() && r.rest == tail && tok == want
  {
    HiShape(table, 3, want, tail);
    var br := r.Symbol(table);
    tok := 3 + br;
    if br == 3 {
      tok := HiMiddle(r, table, want, tail);
    }
  }

  method HiMiddle(r: Reader, table: nat, ghost want: nat, ghost tail: seq<Op>) returns (tok: nat)
    requires r.Valid() && 6 <= want <= 15 && r.rest == HiFrom(table, 6, want) + tail
    modifies r, r.ms, r.cdfs
    ensures r.Valid() && r.rest == tail && tok == want
  {
    HiShape(table, 6, want, tail);
    var br := r.Symbol(table);
    tok := 6 + br;
    if br == 3 {
      tok := HiTop(r, table, want, tail);
    }
  }

  method HiTop(r: Reader, table: nat, ghost want: nat, ghost tail: seq<Op>) returns (tok: nat)
    requires r.Valid() && 9 <= want <= 15 && r.rest == HiFrom(table, 9, want) + tail
    modifies r, r.ms, r.cdfs
    ensures r.Valid() && r.rest == tail && tok == want
  {
    HiShape(table, 9, want, tail);
    var br := r.Symbol(table);
    tok := 9 + br;
    if br == 3 {
      HiShape(table, 12, want, tail);
      br := r.Symbol(table);
      tok := 12 + br;
    }
  }

  lemma HiShape(table: nat, base: nat, tok: nat, tail: seq<Op>)
    requires base <= tok <= 15 && base <= 12
    ensures var all := HiFrom(table, base, tok) + tail;
      && all != [] && all[0] == Sym(table, if tok < base + 3 || base >= 12 then tok - base else 3)
      && all[1..] == (if tok < base + 3 || base >= 12 then tail else HiFrom(table, base + 3, tok) + tail)
  {
  }

  method Base(r: Reader, base: nat, br: nat, ghost shown: nat, ghost tail: seq<Op>) returns (tok: nat)
    requires r.Valid() && shown <= 15 && r.rest == BaseOps(base, br, shown) + tail
    modifies r, r.ms, r.cdfs
    ensures r.Valid() && r.rest == tail && tok == shown
  {
    if shown >= 3 {
      TakeFirst(Sym(base, 3), HiTokOps(br, shown), tail);
    }
    tok := r.Symbol(base);
    if tok == 3 {
      tok := HiTok(r, br, shown, tail);
    }
  }

  method Last(r: Reader, base: nat, br: nat, ghost shown: nat, ghost tail: seq<Op>) returns (tok: nat)
    requires r.Valid() && 1 <= shown <= 15 && r.rest == LastOps(base, br, shown) + tail
    modifies r, r.ms, r.cdfs
    ensures r.Valid() && r.rest == tail && tok == shown
  {
    if shown >= 3 {
      TakeFirst(Sym(base, 2), HiTokOps(br, shown), tail);
    }
    var et := r.Symbol(base);
    tok := et + 1;
    if et == 2 {
      tok := HiTok(r, br, shown, tail);
    }
  }

  method DecodeEob(r: Reader, ch: nat, ghost want: nat, ghost tail: seq<Op>) returns (eob: nat)
    requires r.Valid() && want < 16 && r.rest == EobOps(ch, want) + tail
    modifies r, r.ms, r.cdfs
    ensures r.Valid() && r.rest == tail && eob == want
  {
    EobShape(ch, want, tail);
    var eobBin := r.Symbol(EobBin(ch));
    if eobBin > 1 {
      eob := EobRest(r, EobHi(ch, eobBin), eobBin - 2, want, tail);
    } else {
      eob := eobBin;
    }
  }

  method EobRest(r: Reader, table: nat, n: nat, ghost want: nat, ghost tail: seq<Op>) returns (eob: nat)
    requires r.Valid() && 2 <= want < 16 && n == EobClass(want) - 2
    requires r.rest == [Sym(table, EobUpper(want))] + (BitOps(n, EobLow(want)) + tail)
    modifies r, r.ms, r.cdfs
    ensures r.Valid() && r.rest == tail && eob == want
  {
    EobSum(want, n);
    Headed(Sym(table, EobUpper(want)), BitOps(n, EobLow(want)) + tail, r.rest);
    var hi := r.Symbol(table);
    eob := WholeBools(r, n, hi + 2, EobLow(want), tail, want);
  }

  lemma Headed(op: Op, ops: seq<Op>, all: seq<Op>)
    requires all == [op] + ops
    ensures all != [] && all[0] == op && all[1..] == ops
  {
  }

  lemma EobSum(eob: nat, n: nat)
    requires 2 <= eob < 16 && n == EobClass(eob) - 2
    ensures EobLow(eob) < Pow2(n) && eob == Shl(EobUpper(eob) + 2, n) + EobLow(eob)
  {
    ShlSmall(1, n);
    ShlSmall(EobUpper(eob) + 2, n);
  }

  method WholeBools(r: Reader, n: nat, start: nat, ghost x: nat, ghost tail: seq<Op>, ghost want: nat) returns (v: nat)
    requires r.Valid() && r.rest == BitOps(n, x) + tail && x < Pow2(n) && want == Shl(start, n) + x
    modifies r, r.ms, r.cdfs
    ensures r.Valid() && r.rest == tail && v == want
  {
    LowSmall(x, n);
    v := Bools(r, n, start, x, tail);
  }

  lemma EobShape(ch: nat, eob: nat, tail: seq<Op>)
    requires eob < 16
    ensures var bin := EobClass(eob);
      EobOps(ch, eob) + tail == [Sym(EobBin(ch), bin)]
        + (if eob < 2 then tail else [Sym(EobHi(ch, bin), EobUpper(eob))] + (BitOps(bin - 2, EobLow(eob)) + tail))
  {
    var bin := EobClass(eob);
    if eob >= 2 {
      Nested([Sym(EobBin(ch), bin)], [Sym(EobHi(ch, bin), EobUpper(eob))], BitOps(bin - 2, EobLow(eob)), tail);
    }
  }

  lemma Nested(a: seq<Op>, b: seq<Op>, c: seq<Op>, d: seq<Op>)
    ensures (a + (b + c)) + d == a + (b + (c + d))
  {
  }

  // ---- the tokens of a block

  /** An entry for each value but the first that is not zero, from scan position i
      on: where it goes and what its token shows. */
  function Coming(t: Tables, v: Block, i: nat, eob: nat): seq<(nat, nat)>
    requires eob < 16
    decreases 16 - i, eob
  {
    if i > eob then []
    else (if v[t.scan[i]] == 0 then [] else [(t.scan[i], Shown(v[t.scan[i]]))]) + Coming(t, v, i + 1, eob)
  }

  lemma ShownBound(x: int)
    ensures Shown(x) <= 15 && (Shown(x) == 0 <==> x == 0)
  {
  }

  /** The tokens of a block from the last to the first. `acs` lists those with a
      sign to come in scan order: they are found in falling order, then sorted. */
  method Tokens(t: Tables, r: Reader, ch: nat, eob: nat, ghost v: Block, ghost tail: seq<Op>)
    returns (dcTok: nat, acs: seq<(nat, nat)>)
    requires r.Valid() && eob < 16 && v[t.scan[eob]] != 0
    requires r.rest == LastTokenOps(t, ch, v, eob) + (TokensOps(t, ch, v, eob, eob) + tail)
    modifies r, r.ms, r.cdfs
    ensures r.Valid() && r.rest == tail
    ensures dcTok == Shown(v[0]) && acs == Coming(t, v, 1, eob)
  {
    var rc := t.scan[eob];
    ShownBound(v[rc]);
    if eob == 0 {
      dcTok := Last(r, EobBase(ch, 0), BrTok(ch, 0), Shown(v[0]), TokensOps(t, ch, v, 0, 0) + tail);
      acs := [];
      assert [] + tail == tail;
      return;
    }
    var tok := Last(r, EobBase(ch, EobCtx(eob)), BrTok(ch, HiBase(rc)), Shown(v[rc]), TokensOps(t, ch, v, eob, eob) + tail);
    var levels: seq<nat> := seq(24, _ => 0);
    dcTok, acs := Others(t, r, ch, eob, levels[rc := Stored(tok)], [(rc, tok)], v, tail);
  }

  method Others(t: Tables, r: Reader, ch: nat, eob: nat, levels0: seq<nat>, acs0: seq<(nat, nat)>, ghost v: Block, ghost tail: seq<Op>)
    returns (dcTok: nat, acs: seq<(nat, nat)>)
    requires r.Valid() && 1 <= eob < 16 && levels0 == Levels(t, v, eob, eob) && acs0 == Coming(t, v, eob, eob)
    requires r.rest == TokensOps(t, ch, v, eob, eob) + tail
    modifies r, r.ms, r.cdfs
    ensures r.Valid() && r.rest == tail
    ensures dcTok == Shown(v[0]) && acs == Coming(t, v, 1, eob)
  {
    var levels, i := levels0, eob;
    acs := acs0;
    while i > 1
      invariant 1 <= i <= eob && levels == Levels(t, v, i, eob) && acs == Coming(t, v, i, eob)
      invariant r.Valid() && r.rest == TokensOps(t, ch, v, i, eob) + tail
    {
      i := i - 1;
      Rejoin(TokenOps(t, ch, v, i, eob), TokensOps(t, ch, v, i, eob), tail);
      var tok := One(t, r, ch, i, eob, levels, v, TokensOps(t, ch, v, i, eob) + tail);
      OneMore(t, v, i, eob);
      levels := levels[t.scan[i] := Stored(tok)];
      if tok != 0 {
        acs := [(t.scan[i], tok)] + acs;
      }
    }
    dcTok := First(t, r, ch, eob, levels, v, tail);
  }

  lemma OneMore(t: Tables, v: Block, i: nat, eob: nat)
    requires 1 <= i < eob < 16
    ensures var rc, tok := t.scan[i], Shown(v[t.scan[i]]);
      && Levels(t, v, i, eob) == Levels(t, v, i + 1, eob)[rc := Stored(tok)]
      && Coming(t, v, i, eob) == if tok != 0 then [(rc, tok)] + Coming(t, v, i + 1, eob) else Coming(t, v, i + 1, eob)
  {
    ShownBound(v[t.scan[i]]);
  }

  method One(t: Tables, r: Reader, ch: nat, i: nat, eob: nat, levels: seq<nat>, ghost v: Block, ghost tail: seq<Op>)
    returns (tok: nat)
    requires r.Valid() && 1 <= i < eob < 16 && levels == Levels(t, v, i + 1, eob)
    requires r.rest == TokenOps(t, ch, v, i, eob) + tail
    modifies r, r.ms, r.cdfs
    ensures r.Valid() && r.rest == tail && tok == Shown(v[t.scan[i]])
  {
    var rc := t.scan[i];
    ShownBound(v[rc]);
    tok := Base(r, BaseTok(ch, LoCtx(t, levels, rc)), BrTok(ch, HiBase(rc) + HiStep(NearMag(levels, rc))), Shown(v[rc]), tail);
  }

  lemma Rejoin(a: seq<Op>, b: seq<Op>, c: seq<Op>)
    ensures (a + b) + c == a + (b + c)
  {
  }

  method First(t: Tables, r: Reader, ch: nat, eob: nat, levels: seq<nat>, ghost v: Block, ghost tail: seq<Op>)
    returns (dcTok: nat)
    requires r.Valid() && 1 <= eob < 16 && levels == Levels(t, v, 1, eob)
    requires r.rest == TokensOps(t, ch, v, 1, eob) + tail
    modifies r, r.ms, r.cdfs
    ensures r.Valid() && r.rest == tail && dcTok == Shown(v[0])
  {
    ShownBound(v[0]);
    assert TokensOps(t, ch, v, 0, eob) == [];
    assert TokensOps(t, ch, v, 1, eob) == TokenOps(t, ch, v, 0, eob);
    dcTok := Base(r, BaseTok(ch, 0), BrTok(ch, HiStep(NearMag(levels, 0))), Shown(v[0]), tail);
  }

  // ---- signs, and the values

  /** A token with what follows it: the whole magnitude. */
  method Whole(r: Reader, tok: nat, ghost x: int, ghost tail: seq<Op>) returns (mag: nat)
    requires r.Valid() && tok == Shown(x) && Abs(x) <= 8191 && r.rest == TailOps(x) + tail
    modifies r, r.ms, r.cdfs
    ensures r.Valid() && r.rest == tail && mag == Abs(x)
  {
    mag := tok;
    if tok >= 15 {
      var more := Golomb(r, Abs(x) - 15, tail);
      Masked(more + 15);
      mag := (more + 15) % 0x10_0000;
    } else {
      NoTail(x, tail);
    }
  }

  lemma Masked(a: nat)
    requires a < 0x10_0000
    ensures a % 0x10_0000 == a
  {
  }

  lemma NoTail(x: int, tail: seq<Op>)
    requires Shown(x) < 15
    ensures TailOps(x) + tail == tail && Shown(x) == Abs(x)
  {
  }

  /** The stored coefficient: the token times the lossless step, 4, with its sign. */
  function Dequant(mag: nat, sign: nat): (c: int)
    ensures mag <= 8191 ==> c == (if sign != 0 then -4 * mag else 4 * mag)
  {
    var dqv: int := 4 * mag % 0x100_0000;
    var c := if dqv < 32767 + sign then dqv else 32767 + sign;
    if sign != 0 then -c else c
  }

  method Dc(r: Reader, ch: nat, sctx: nat, dcTok: nat, ghost v: Block, ghost tail: seq<Op>) returns (mag: nat, coef: int)
    requires r.Valid() && dcTok == Shown(v[0]) && Abs(v[0]) <= 8191 && r.rest == DcOps(ch, v, sctx) + tail
    modifies r, r.ms, r.cdfs
    ensures r.Valid() && r.rest == tail && mag == Abs(v[0]) && coef == 4 * v[0]
  {
    ShownBound(v[0]);
    mag, coef := 0, 0;
    if dcTok != 0 {
      TakeFirst(Sym(DcSign(ch, sctx), Neg(v[0])), TailOps(v[0]), tail);
      var sign := r.Symbol(DcSign(ch, sctx));
      mag := Whole(r, dcTok, v[0], tail);
      coef := Dequant(mag, sign);
    } else {
      assert [] + tail == tail;
    }
  }

  function Only(dc: int): Block {
    seq(16, k => if k == 0 then dc else 0)
  }

  /** The coefficients once those up to scan position i are placed. */
  function Placed(t: Tables, v: Block, i: nat): (coef: Block)
    requires 1 <= i <= 16
  {
    if i == 1 then Only(4 * v[0])
    else if v[t.scan[i - 1]] == 0 then Placed(t, v, i - 1)
    else Placed(t, v, i - 1)[t.scan[i - 1] := 4 * v[t.scan[i - 1]]]
  }

  /** Zeros have no call, no entry and no place. */
  lemma {:induction false} SkipZeros(t: Tables, v: Block, i: nat, eob: nat) returns (k: nat)
    requires 1 <= i && eob < 16 && Coming(t, v, i, eob) != []
    ensures i <= k <= eob && v[t.scan[k]] != 0
    ensures Coming(t, v, i, eob) == Coming(t, v, k, eob) && SignsOps(t, v, i, eob) == SignsOps(t, v, k, eob)
    ensures Cul(t, v, i, eob) == Cul(t, v, k, eob) && Placed(t, v, i) == Placed(t, v, k)
    decreases 16 - i
  {
    if v[t.scan[i]] != 0 {
      k := i;
    } else {
      k := SkipZeros(t, v, i + 1, eob);
    }
  }

  lemma {:induction false} NoneLeft(t: Tables, v: Block, i: nat, eob: nat)
    requires 1 <= i <= eob + 1 <= 16 && Coming(t, v, i, eob) == []
    ensures SignsOps(t, v, i, eob) == [] && Cul(t, v, i, eob) == 0 && Placed(t, v, i) == Placed(t, v, eob + 1)
    decreases 16 - i
  {
    if i <= eob {
      NoneLeft(t, v, i + 1, eob);
    }
  }

  method Signs(t: Tables, r: Reader, acs: seq<(nat, nat)>, coef0: Block, ghost v: Block, ghost eob: nat, ghost tail: seq<Op>)
    returns (coef: Block, cul: nat)
    requires r.Valid() && eob < 16 && acs == Coming(t, v, 1, eob) && coef0 == Placed(t, v, 1)
    requires (forall k :: 0 <= k < 16 ==> Abs(v[k]) <= 8191) && r.rest == SignsOps(t, v, 1, eob) + tail
    modifies r, r.ms, r.cdfs
    ensures r.Valid() && r.rest == tail
    ensures coef == Placed(t, v, eob + 1) && cul == Cul(t, v, 1, eob)
  {
    coef, cul := coef0, 0;
    ghost var i := 1;
    for j := 0 to |acs|
      invariant 1 <= i <= eob + 1 && acs[j..] == Coming(t, v, i, eob) && coef == Placed(t, v, i)
      invariant r.Valid() && r.rest == SignsOps(t, v, i, eob) + tail
      invariant cul + Cul(t, v, i, eob) == Cul(t, v, 1, eob)
    {
      ghost var k := SkipZeros(t, v, i, eob);
      var (rc, tok) := acs[j];
      ComingStep(t, v, acs, j, k, eob);
      var mag, sign := Signed(t, r, tok, v, k, eob, tail);
      PlacedStep(t, v, k, mag, sign);
      coef := coef[rc := Dequant(mag, sign)];
      cul := cul + mag;
      i := k + 1;
    }
    NoneLeft(t, v, i, eob);
    assert [] + tail == tail;
  }

  lemma ComingStep(t: Tables, v: Block, acs: seq<(nat, nat)>, j: nat, k: nat, eob: nat)
    requires j < |acs| && 1 <= k <= eob < 16 && acs[j..] == Coming(t, v, k, eob) && v[t.scan[k]] != 0
    ensures acs[j] == (t.scan[k], Shown(v[t.scan[k]])) && acs[j + 1..] == Coming(t, v, k + 1, eob)
  {
    assert acs[j..][0] == acs[j] && acs[j..][1..] == acs[j + 1..];
  }

  lemma PlacedStep(t: Tables, v: Block, k: nat, mag: nat, sign: nat)
    requires 1 <= k < 16 && v[t.scan[k]] != 0 && mag == Abs(v[t.scan[k]]) <= 8191 && sign == Neg(v[t.scan[k]])
    ensures Placed(t, v, k + 1) == Placed(t, v, k)[t.scan[k] := Dequant(mag, sign)]
  {
  }

  method Signed(t: Tables, r: Reader, tok: nat, ghost v: Block, ghost k: nat, ghost eob: nat, ghost tail: seq<Op>)
    returns (mag: nat, sign: nat)
    requires r.Valid() && 1 <= k <= eob < 16 && v[t.scan[k]] != 0 && Abs(v[t.scan[k]]) <= 8191
    requires tok == Shown(v[t.scan[k]]) && r.rest == SignsOps(t, v, k, eob) + tail
    modifies r, r.ms, r.cdfs
    ensures r.Valid() && r.rest == SignsOps(t, v, k + 1, eob) + tail
    ensures mag == Abs(v[t.scan[k]]) && sign == Neg(v[t.scan[k]])
  {
    ghost var x := v[t.scan[k]];
    SignShape(Equi(Neg(x)), TailOps(x), SignsOps(t, v, k + 1, eob), tail);
    sign := r.Equi();
    mag := Whole(r, tok, x, SignsOps(t, v, k + 1, eob) + tail);
  }

  lemma SignShape(op: Op, a: seq<Op>, b: seq<Op>, tail: seq<Op>)
    ensures var all := ([op] + (a + b)) + tail; all != [] && all[0] == op && all[1..] == a + (b + tail)
  {
  }

  /** When every position is placed, nothing is missing. */
  lemma AllPlaced(t: Tables, v: Block, eob: nat)
    requires eob == Eob(t, v, |t.scan|)
    ensures Placed(t, v, eob + 1) == Times4(v)
  {
    forall rc | 0 <= rc < 16
      ensures Placed(t, v, eob + 1)[rc] == 4 * v[rc]
    {
      var i := t.place[rc];
      PlacedAt(t, v, eob + 1, i);
    }
  }

  lemma {:induction false} PlacedAt(t: Tables, v: Block, n: nat, i: nat)
    requires 1 <= n <= 16 && i < 16
    ensures Placed(t, v, n)[t.scan[i]] == if i < n then 4 * v[t.scan[i]] else 0
    decreases n
  {
    if n > 1 {
      PlacedAt(t, v, n - 1, i);
    }
  }

  function Times4(v: Block): Block {
    seq(16, k requires 0 <= k < 16 => 4 * v[k])
  }

  // ---- the whole block

  /** Reads one block: the position of its last value or -1, its coefficients, and
      the context it leaves. */
  method Coefs(t: Tables, r: Reader, plane: nat, above: nat, left: nat, ghost v: Block, ghost tail: seq<Op>)
    returns (eob: int, coef: Block, level: nat)
    requires r.Valid() && forall k :: 0 <= k < 16 ==> Abs(v[k]) <= 8191
    requires r.rest == BlockOps(t, plane, v, above, left) + tail
    modifies r, r.ms, r.cdfs
    ensures r.Valid() && r.rest == tail
    ensures eob == Eob(t, v, |t.scan|) && coef == Times4(v) && level == Left(t, v)
    ensures eob < 0 ==> forall k :: 0 <= k < 16 ==> coef[k] == 0
  {
    var ch := if plane != 0 then 1 else 0;
    var sctx := SkipCtx(t, plane, above, left);
    ghost var last := Eob(t, v, |t.scan|);
    LeftIs(t, v);
    if last >= 0 {
      TakeFirst(Sym(SkipTable(sctx), 0), CodedOps(t, ch, v, last, SignCtx(above, left)), tail);
    }
    var allSkip := r.Symbol(SkipTable(sctx));
    if allSkip != 0 {
      AllZero(t, v);
      return -1, seq(16, _ => 0), 64;
    }
    eob, coef, level := Coded(t, r, ch, SignCtx(above, left), v, tail);
  }

  lemma AllZero(t: Tables, v: Block)
    requires Eob(t, v, |t.scan|) < 0
    ensures Times4(v) == seq(16, _ => 0)
  {
    forall rc | 0 <= rc < 16
      ensures v[rc] == 0
    {
      var i := t.place[rc];
    }
  }

  method Coded(t: Tables, r: Reader, ch: nat, sctx: nat, ghost v: Block, ghost tail: seq<Op>)
    returns (eob: nat, coef: Block, level: nat)
    requires r.Valid() && forall k :: 0 <= k < 16 ==> Abs(v[k]) <= 8191
    requires var last := Eob(t, v, |t.scan|); last >= 0 && r.rest == CodedOps(t, ch, v, last, sctx) + tail
    modifies r, r.ms, r.cdfs
    ensures r.Valid() && r.rest == tail
    ensures eob == Eob(t, v, |t.scan|) && coef == Times4(v) && level == Level(v[0], CulAll(t, v, eob))
  {
    ghost var last := Eob(t, v, |t.scan|);
    ghost var rest := DcOps(ch, v, sctx) + (SignsOps(t, v, 1, last) + tail);
    CodedShape(t, ch, v, last, sctx, tail);
    eob := DecodeEob(r, ch, last, LastTokenOps(t, ch, v, last) + (TokensOps(t, ch, v, last, last) + rest));
    var dcTok, acs := Tokens(t, r, ch, eob, v, rest);
    coef, level := Values(t, r, ch, sctx, dcTok, acs, v, last, tail);
    AllPlaced(t, v, last);
  }

  method Values(t: Tables, r: Reader, ch: nat, sctx: nat, dcTok: nat, acs: seq<(nat, nat)>, ghost v: Block, ghost eob: nat,
                ghost tail: seq<Op>)
    returns (coef: Block, level: nat)
    requires r.Valid() && eob < 16 && (forall k :: 0 <= k < 16 ==> Abs(v[k]) <= 8191)
    requires dcTok == Shown(v[0]) && acs == Coming(t, v, 1, eob)
    requires r.rest == DcOps(ch, v, sctx) + (SignsOps(t, v, 1, eob) + tail)
    modifies r, r.ms, r.cdfs
    ensures r.Valid() && r.rest == tail
    ensures coef == Placed(t, v, eob + 1) && level == Level(v[0], CulAll(t, v, eob))
  {
    var dcMag, dc := Dc(r, ch, sctx, dcTok, v, SignsOps(t, v, 1, eob) + tail);
    var cul;
    coef, cul := Signs(t, r, acs, Only(dc), v, eob, tail);
    cul := cul + dcMag;
    level := Level(dc, cul);
  }

  lemma CodedShape(t: Tables, ch: nat, v: Block, eob: nat, sctx: nat, tail: seq<Op>)
    requires eob < 16 && v[t.scan[eob]] != 0
    ensures CodedOps(t, ch, v, eob, sctx) + tail
      == EobOps(ch, eob) + (LastTokenOps(t, ch, v, eob) + (TokensOps(t, ch, v, eob, eob)
         + (DcOps(ch, v, sctx) + (SignsOps(t, v, 1, eob) + tail))))
  {
    FiveJoin(EobOps(ch, eob), LastTokenOps(t, ch, v, eob), TokensOps(t, ch, v, eob, eob), DcOps(ch, v, sctx),
             SignsOps(t, v, 1, eob), tail);
  }

  lemma FiveJoin(a: seq<Op>, b: seq<Op>, c: seq<Op>, d: seq<Op>, e: seq<Op>, f: seq<Op>)
    ensures (a + (b + (c + (d + e)))) + f == a + (b + (c + (d + (e + f))))
  {
  }
}
