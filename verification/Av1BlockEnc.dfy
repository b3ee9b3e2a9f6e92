// The encoder of one block: it makes exactly the calls of the block's syntax.

module Av1BlockEnc {
  import opened Bits
  import opened MsacModel
  import opened Av1Channel
  import opened Av1Syntax

  ghost predicate Sized(cdfs: seq<array<nat>>) {
    |cdfs| == TABLES && forall i :: 0 <= i < TABLES ==> cdfs[i].Length == Entries(i)
  }

  method Bools(w: Writer, n: nat, value: nat)
    requires w.Valid()
    modifies w, w.ms, w.cdfs
    ensures w.Valid() && w.log == old(w.log) + BitOps(n, value)
  {
    var i := n;
    ShrNat(value, n);
    assert w.log == old(w.log) + [];
    while i > 0
      invariant 0 <= i <= n && Shr(value, i) >= 0
      invariant w.Valid() && w.log == old(w.log) + BitOps(n - i, Shr(value, i))
    {
      i := i - 1;
      BitsMore(n, i, value);
      w.Equi(Shr(value, i) % 2);
      Join(old(w.log), BitOps(n - i - 1, Shr(value, i + 1)), [Equi(Shr(value, i) % 2)]);
    }
  }

  lemma BitsMore(n: nat, i: nat, value: nat)
    requires i < n
    ensures Shr(value, i) >= 0 && Shr(value, i + 1) >= 0
    ensures BitOps(n - i, Shr(value, i)) == BitOps(n - i - 1, Shr(value, i + 1)) + [Equi(Shr(value, i) % 2)]
  {
    ShrNat(value, i);
    ShrNat(value, i + 1);
  }

  lemma Join(a: seq<Op>, b: seq<Op>, c: seq<Op>)
    ensures (a + b) + c == a + (b + c)
  {
  }

  method Golomb(w: Writer, value: nat)
    requires w.Valid()
    modifies w, w.ms, w.cdfs
    ensures w.Valid() && w.log == old(w.log) + GolombOps(value)
  {
    BitLenBounds(value + 1);
    var length := BitLen(value + 1) - 1;
    for i := 0 to length
      invariant w.Valid() && w.log == old(w.log) + Zeros(i)
    {
      w.Equi(0);
      Join(old(w.log), Zeros(i), [Equi(0)]);
      assert Zeros(i + 1) == Zeros(i) + [Equi(0)];
    }
    w.Equi(1);
    var body := if length != 0 then Low(value + 1, length) else 0;
    LowBounds(value + 1, length);
    LowOps(length, value + 1);
    Bools(w, length, body);
    Join(old(w.log), Zeros(length), [Equi(1)]);
    Join(old(w.log), Zeros(length) + [Equi(1)], BitOps(length, value + 1));
    Join(Zeros(length), [Equi(1)], BitOps(length, value + 1));
  }

  /** Only the low bits of a number are written. */
  lemma LowOps(n: nat, x: nat)
    ensures Low(x, n) >= 0 && BitOps(n, Low(x, n)) == BitOps(n, x)
  {
    LowBounds(x, n);
    ShrNat(x, n);
    SameLow(n, Low(x, n), x, Shr(x, n));
  }

  lemma {:induction false} SameLow(n: nat, y: nat, x: nat, q: nat)
    requires x == y + Shl(q, n)
    ensures BitOps(n, y) == BitOps(n, x)
  {
    if n > 0 {
      SameLow(n - 1, y / 2, x / 2, q);
    }
  }

  method HiTok(w: Writer, table: nat, tok: nat)
    requires w.Valid() && table < |w.cdfs| && w.cdfs[table].Length == 4 && 3 <= tok <= 15
    modifies w, w.ms, w.cdfs
    ensures w.Valid() && w.log == old(w.log) + HiTokOps(table, tok)
  {
    if tok < 6 {
      w.Symbol(table, tok - 3);
      return;
    }
    w.Symbol(table, 3);
    HiTok6(w, table, tok);
    Join(old(w.log), [Sym(table, 3)], HiFrom(table, 6, tok));
  }

  /** A token that is at least 6. */
  method HiTok6(w: Writer, table: nat, tok: nat)
    requires w.Valid() && table < |w.cdfs| && w.cdfs[table].Length == 4 && 6 <= tok <= 15
    modifies w, w.ms, w.cdfs
    ensures w.Valid() && w.log == old(w.log) + HiFrom(table, 6, tok)
  {
    if tok < 9 {
      w.Symbol(table, tok - 6);
      return;
    }
    w.Symbol(table, 3);
    HiTok9(w, table, tok);
    Join(old(w.log), [Sym(table, 3)], HiFrom(table, 9, tok));
  }

  /** A token that is at least 9. */
  method HiTok9(w: Writer, table: nat, tok: nat)
    requires w.Valid() && table < |w.cdfs| && w.cdfs[table].Length == 4 && 9 <= tok <= 15
    modifies w, w.ms, w.cdfs
    ensures w.Valid() && w.log == old(w.log) + HiFrom(table, 9, tok)
  {
    if tok < 12 {
      w.Symbol(table, tok - 9);
      return;
    }
    HiTop(table, 9, tok);
    TwoSymbols(w, table, 3, tok - 12);
  }

  method TwoSymbols(w: Writer, table: nat, a: nat, b: nat)
    requires w.Valid() && table < |w.cdfs| && a < w.cdfs[table].Length && b < w.cdfs[table].Length
    modifies w, w.ms, w.cdfs
    ensures w.Valid() && w.log == old(w.log) + ([Sym(table, a)] + [Sym(table, b)])
  {
    w.Symbol(table, a);
    w.Symbol(table, b);
    Join(old(w.log), [Sym(table, a)], [Sym(table, b)]);
  }

  lemma HiTop(table: nat, base: nat, tok: nat)
    requires base == 9 && tok >= 12
    ensures HiFrom(table, base, tok) == [Sym(table, 3)] + [Sym(table, tok - 12)]
  {
  }

  method EncodeEob(w: Writer, ch: nat, eob: nat)
    requires w.Valid() && Sized(w.cdfs) && ch <= 1 && eob < 16
    modifies w, w.ms, w.cdfs
    ensures w.Valid() && w.log == old(w.log) + EobOps(ch, eob)
  {
    if eob <= 1 {
      w.Symbol(EobBin(ch), eob);
      return;
    }
    var k := BitLen(eob) - 2;
    EobNumbers(eob, k);
    var eobBin := k + 2;
    var hi := if eob >= Shl(3, k) then 1 else 0;
    w.Symbol(EobBin(ch), eobBin);
    EncodeHalf(w, ch, eobBin, hi, Low(eob, k));
    Join(old(w.log), [Sym(EobBin(ch), eobBin)], [Sym(EobHi(ch, eobBin), hi)] + BitOps(k, Low(eob, k)));
  }

  method EncodeHalf(w: Writer, ch: nat, bin: nat, hi: nat, low: nat)
    requires w.Valid() && Sized(w.cdfs) && ch <= 1 && 2 <= bin <= 4 && hi <= 1
    modifies w, w.ms, w.cdfs
    ensures w.Valid() && w.log == old(w.log) + ([Sym(EobHi(ch, bin), hi)] + BitOps(bin - 2, low))
  {
    w.Symbol(EobHi(ch, bin), hi);
    if bin > 2 {
      Bools(w, bin - 2, low);
    }
    Join(old(w.log), [Sym(EobHi(ch, bin), hi)], BitOps(bin - 2, low));
  }

  /** Writes one base or high token; what is beyond 15 follows the sign. */
  method EncodeBase(w: Writer, base: nat, br: nat, tok: nat) returns (shown: nat)
    requires w.Valid() && base < |w.cdfs| && w.cdfs[base].Length == 4 && br < |w.cdfs| && w.cdfs[br].Length == 4
    modifies w, w.ms, w.cdfs
    ensures shown == Min(tok, 15)
    ensures w.Valid() && w.log == old(w.log) + BaseOps(base, br, shown)
  {
    if tok < 3 {
      w.Symbol(base, tok);
      return tok;
    }
    w.Symbol(base, 3);
    shown := if tok >= 15 then 15 else tok;
    HiTok(w, br, shown);
    Join(old(w.log), [Sym(base, 3)], HiTokOps(br, shown));
  }

  method EncodeLast(w: Writer, base: nat, br: nat, tok: nat) returns (shown: nat)
    requires w.Valid() && base < |w.cdfs| && w.cdfs[base].Length == 3 && br < |w.cdfs| && w.cdfs[br].Length == 4
    requires tok >= 1
    modifies w, w.ms, w.cdfs
    ensures 1 <= shown == Min(tok, 15)
    ensures w.Valid() && w.log == old(w.log) + LastOps(base, br, shown)
  {
    var et := if tok >= 3 then 2 else tok - 1;
    w.Symbol(base, et);
    if et < 2 {
      return tok;
    }
    shown := if tok >= 15 then 15 else tok;
    HiTok(w, br, shown);
    Join(old(w.log), [Sym(base, 2)], HiTokOps(br, shown));
  }

  method FindEob(t: Tables, v: Block) returns (eob: int)
    ensures eob == Eob(t, v, |t.scan|)
  {
    eob := -1;
    var i := 16;
    while i > 0
      invariant 0 <= i <= 16 && Eob(t, v, |t.scan|) == Eob(t, v, i)
    {
      i := i - 1;
      if v[t.scan[i]] != 0 {
        return i;
      }
    }
  }

  /** The last token, then all others, each in the context of those after it. */
  method EncodeTokens(t: Tables, w: Writer, ch: nat, v: Block, eob: nat)
    requires w.Valid() && Sized(w.cdfs) && ch <= 1 && eob < 16 && v[t.scan[eob]] != 0
    modifies w, w.ms, w.cdfs
    ensures w.Valid() && w.log == old(w.log) + (LastTokenOps(t, ch, v, eob) + TokensOps(t, ch, v, eob, eob))
  {
    var rc := t.scan[eob];
    var tok := Abs(v[rc]);
    if eob == 0 {
      var _ := EncodeLast(w, EobBase(ch, 0), BrTok(ch, 0), tok);
      assert LastTokenOps(t, ch, v, eob) + [] == LastTokenOps(t, ch, v, eob);
      return;
    }
    var shown := EncodeLast(w, EobBase(ch, EobCtx(eob)), BrTok(ch, HiBase(rc)), tok);
    var levels: seq<nat> := seq(24, _ => 0);
    EncodeOthers(t, w, ch, v, eob, levels[rc := Stored(shown)]);
    Join(old(w.log), LastTokenOps(t, ch, v, eob), TokensOps(t, ch, v, eob, eob));
  }

  method EncodeOthers(t: Tables, w: Writer, ch: nat, v: Block, eob: nat, levels0: seq<nat>)
    requires w.Valid() && Sized(w.cdfs) && ch <= 1 && 1 <= eob < 16 && levels0 == Levels(t, v, eob, eob)
    modifies w, w.ms, w.cdfs
    ensures w.Valid() && w.log == old(w.log) + TokensOps(t, ch, v, eob, eob)
  {
    var levels, i := levels0, eob;
    ghost var done: seq<Op> := [];
    assert w.log == old(w.log) + done;
    while i > 1
      invariant 1 <= i <= eob && levels == Levels(t, v, i, eob)
      invariant w.Valid() && w.log == old(w.log) + done
      invariant done + TokensOps(t, ch, v, i, eob) == TokensOps(t, ch, v, eob, eob)
    {
      i := i - 1;
      ghost var own := TokenOps(t, ch, v, i, eob);
      levels := EncodeOne(t, w, ch, v, i, eob, levels);
      Join(old(w.log), done, own);
      Join(done, own, TokensOps(t, ch, v, i, eob));
      done := done + own;
    }
    var _ := EncodeBase(w, BaseTok(ch, 0), BrTok(ch, HiStep(NearMag(levels, 0))), Abs(v[0]));
    LastOne(t, ch, v, eob);
    Join(old(w.log), done, TokenOps(t, ch, v, 0, eob));
  }

  method EncodeOne(t: Tables, w: Writer, ch: nat, v: Block, i: nat, eob: nat, levels: seq<nat>) returns (next: seq<nat>)
    requires w.Valid() && Sized(w.cdfs) && ch <= 1 && 1 <= i < eob < 16
    requires levels == Levels(t, v, i + 1, eob)
    modifies w, w.ms, w.cdfs
    ensures w.Valid() && w.log == old(w.log) + TokenOps(t, ch, v, i, eob)
    ensures next == Levels(t, v, i, eob)
  {
    var rc := t.scan[i];
    var mag := NearMag(levels, rc);
    var shown := EncodeBase(w, BaseTok(ch, LoCtx(t, levels, rc)), BrTok(ch, HiBase(rc) + HiStep(mag)), Abs(v[rc]));
    next := levels[rc := Stored(shown)];
  }

  lemma LastOne(t: Tables, ch: nat, v: Block, eob: nat)
    requires 1 <= eob < 16
    ensures TokensOps(t, ch, v, 1, eob) == TokenOps(t, ch, v, 0, eob)
  {
    assert TokensOps(t, ch, v, 0, eob) == [];
  }

  method Tail(w: Writer, x: int)
    requires w.Valid()
    modifies w, w.ms, w.cdfs
    ensures w.Valid() && w.log == old(w.log) + TailOps(x)
  {
    var tok := Abs(x);
    if tok >= 15 {
      Golomb(w, tok - 15);
    }
  }

  method EncodeDc(w: Writer, ch: nat, v: Block, ctx: nat)
    requires w.Valid() && Sized(w.cdfs) && ch <= 1 && ctx < 3
    modifies w, w.ms, w.cdfs
    ensures w.Valid() && w.log == old(w.log) + DcOps(ch, v, ctx)
  {
    if v[0] != 0 {
      w.Symbol(DcSign(ch, ctx), Neg(v[0]));
      Tail(w, v[0]);
      Join(old(w.log), [Sym(DcSign(ch, ctx), Neg(v[0]))], TailOps(v[0]));
    }
  }

  /** The signs of all but the first value, in scan order. */
  method EncodeSigns(t: Tables, w: Writer, v: Block, eob: nat) returns (cul: nat)
    requires w.Valid() && eob < 16
    modifies w, w.ms, w.cdfs
    ensures w.Valid() && w.log == old(w.log) + SignsOps(t, v, 1, eob)
    ensures cul == Cul(t, v, 1, eob)
  {
    cul := 0;
    var i := 1;
    ghost var done: seq<Op> := [];
    assert w.log == old(w.log) + done;
    while i <= eob
      invariant 1 <= i <= 16 && (i <= eob + 1 || i == 1) && w.Valid() && w.log == old(w.log) + done
      invariant done + SignsOps(t, v, i, eob) == SignsOps(t, v, 1, eob)
      invariant cul + Cul(t, v, i, eob) == Cul(t, v, 1, eob)
    {
      var x := v[t.scan[i]];
      if x != 0 {
        w.Equi(Neg(x));
        Tail(w, x);
        SignJoin(old(w.log), done, [Equi(Neg(x))], TailOps(x), SignsOps(t, v, i + 1, eob));
        done := done + ([Equi(Neg(x))] + TailOps(x));
      }
      cul := cul + Abs(x);
      i := i + 1;
    }
    assert done + [] == done;
  }

  lemma SignJoin(log: seq<Op>, done: seq<Op>, a: seq<Op>, b: seq<Op>, rest: seq<Op>)
    ensures ((log + done) + a) + b == log + (done + (a + b))
    ensures done + (a + (b + rest)) == (done + (a + b)) + rest
  {
  }

  /** Codes one block, given the contexts around it, and returns the context it
      leaves. */
  method EncodeValues(t: Tables, w: Writer, plane: nat, v: Block, above: nat, left: nat) returns (level: nat)
    requires w.Valid() && Sized(w.cdfs)
    modifies w, w.ms, w.cdfs
    ensures w.Valid() && w.log == old(w.log) + BlockOps(t, plane, v, above, left)
    ensures level == Left(t, v)
  {
    var ch := if plane != 0 then 1 else 0;
    var sctx := SkipCtx(t, plane, above, left);
    var eob := FindEob(t, v);
    LeftIs(t, v);
    if eob < 0 {
      w.Symbol(SkipTable(sctx), 1);
      return 64;
    }
    level := EncodeNonzero(t, w, ch, v, eob, SkipTable(sctx), SignCtx(above, left));
  }

  method EncodeNonzero(t: Tables, w: Writer, ch: nat, v: Block, eob: nat, skip: nat, sign: nat) returns (level: nat)
    requires w.Valid() && Sized(w.cdfs) && ch <= 1 && skip < 13 && sign < 3
    requires eob < 16 && v[t.scan[eob]] != 0
    modifies w, w.ms, w.cdfs
    ensures w.Valid() && w.log == old(w.log) + ([Sym(skip, 0)] + CodedOps(t, ch, v, eob, sign))
    ensures level == Level(v[0], CulAll(t, v, eob))
  {
    w.Symbol(skip, 0);
    var cul := EncodeCoded(t, w, ch, v, eob, sign);
    Join(old(w.log), [Sym(skip, 0)], CodedOps(t, ch, v, eob, sign));
    level := Level(v[0], cul);
  }

  method EncodeCoded(t: Tables, w: Writer, ch: nat, v: Block, eob: nat, sign: nat) returns (cul: nat)
    requires w.Valid() && Sized(w.cdfs) && ch <= 1 && sign < 3 && eob < 16 && v[t.scan[eob]] != 0
    modifies w, w.ms, w.cdfs
    ensures w.Valid() && w.log == old(w.log) + CodedOps(t, ch, v, eob, sign)
    ensures cul == CulAll(t, v, eob)
  {
    EncodeEob(w, ch, eob);
    EncodeTokens(t, w, ch, v, eob);
    EncodeDc(w, ch, v, sign);
    cul := EncodeSigns(t, w, v, eob);
    cul := cul + Abs(v[0]);
    Regroup(old(w.log), EobOps(ch, eob), LastTokenOps(t, ch, v, eob), TokensOps(t, ch, v, eob, eob),
            DcOps(ch, v, sign), SignsOps(t, v, 1, eob));
  }

  lemma Regroup(log: seq<Op>, b: seq<Op>, c: seq<Op>, d: seq<Op>, e: seq<Op>, f: seq<Op>)
    ensures (((log + b) + (c + d)) + e) + f == log + (b + (c + (d + (e + f))))
  {
  }

  function Scaled(small: Block): Block {
    seq(16, k requires 0 <= k < 16 => small[k] / 4)
  }
}
