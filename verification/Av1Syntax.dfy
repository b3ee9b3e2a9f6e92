// The syntax of one lossless 4x4 block (AV1 Bitstream & Decoding Process
// Specification, section 5.11.39): which calls of the range coder stand for its
// sixteen values. Each call's distribution depends on values coded before it.

module Av1Syntax {
  import opened Bits
  import opened MsacModel

  /** The scan order, which starts at the first value, and where each position
      comes in it; the tables that pick contexts. */
  datatype ScanTables = ScanTables(scan: seq<nat>, place: seq<nat>, loCtx: seq<seq<nat>>, skipCtx: seq<seq<nat>>)

  ghost predicate Proper(t: ScanTables) {
    && |t.scan| == |t.place| == 16 && t.scan[0] == 0
    && (forall i :: 0 <= i < 16 ==> t.scan[i] < 16 && t.place[t.scan[i]] == i)
    && (forall rc :: 0 <= rc < 16 ==> t.place[rc] < 16 && t.scan[t.place[rc]] == rc)
    && |t.loCtx| == 5 && (forall i :: 0 <= i < 5 ==> |t.loCtx[i]| == 5)
    && (forall i, j :: 0 <= i < 5 && 0 <= j < 5 ==> t.loCtx[i][j] <= 21)
    && |t.skipCtx| == 5 && (forall i :: 0 <= i < 5 ==> |t.skipCtx[i]| == 5)
    && (forall i, j :: 0 <= i < 5 && 0 <= j < 5 ==> t.skipCtx[i][j] < 13)
  }

  type Tables = t: ScanTables | Proper(t)
    ghost witness ScanTables(seq(16, i requires 0 <= i < 16 => i), seq(16, i requires 0 <= i < 16 => i), seq(5, _ => [0, 0, 0, 0, 0]), seq(5, _ => [0, 0, 0, 0, 0]))

  // ---- the adaptive distributions, numbered: luma has ch == 0, chroma 1

  const TABLES := 167

  function SkipTable(ctx: nat): nat { ctx }
  function EobBin(ch: nat): nat { 13 + ch }
  function EobHi(ch: nat, bin: nat): nat { 15 + 5 * ch + bin }
  function EobBase(ch: nat, ctx: nat): nat { 25 + 4 * ch + ctx }
  function BaseTok(ch: nat, ctx: nat): nat { 33 + 41 * ch + ctx }
  function BrTok(ch: nat, ctx: nat): nat { 115 + 21 * ch + ctx }
  function DcSign(ch: nat, ctx: nat): nat { 157 + 3 * ch + ctx }
  const PARTITION := 163
  const BLOCK_SKIP := 164
  const Y_MODE := 165
  const UV_MODE := 166

  /** How many entries a distribution has: its values but one, and the count. */
  function Entries(table: nat): nat {
    if table < 13 then 2
    else if table < 15 then 5
    else if table < 25 then 2
    else if table < 33 then 3
    else if table < 157 then 4
    else if table < 163 then 2
    else if table == PARTITION then 10
    else if table == BLOCK_SKIP then 2
    else if table == Y_MODE then 13
    else 14
  }

  // ---- a block: sixteen tokens with signs, by rows

  type Block = v: seq<int> | |v| == 16 witness seq(16, _ => 0)

  function Abs(x: int): nat {
    if x < 0 then 0 - x else x
  }

  function Min(a: int, b: int): int {
    if a < b then a else b
  }

  /** The token as far as it shows before the signs. */
  function Shown(x: int): nat {
    if Abs(x) < 15 then Abs(x) else 15
  }

  function Neg(x: int): nat {
    if x < 0 then 1 else 0
  }

  /** The last scan position with a value, or -1. */
  function Eob(t: Tables, v: Block, n: nat): (e: int)
    requires n <= 16
    ensures -1 <= e < n
    ensures e >= 0 ==> v[t.scan[e]] != 0
    ensures forall i :: e < i < n ==> v[t.scan[i]] == 0
  {
    if n == 0 then -1 else if v[t.scan[n - 1]] != 0 then n - 1 else Eob(t, v, n - 1)
  }

  // ---- contexts

  function Stored(shown: nat): nat {
    if shown >= 3 then shown + 192 else shown * 65
  }

  /** The levels kept when the tokens from scan position i on are known; two rows
      more than the block has stay 0. */
  function Levels(t: Tables, v: Block, i: nat, eob: nat): (levels: seq<nat>)
    requires eob < 16
    ensures |levels| == 24
    decreases 16 - i, eob
  {
    if i > eob then seq(24, _ => 0)
    else Levels(t, v, i + 1, eob)[t.scan[i] := Stored(Shown(v[t.scan[i]]))]
  }

  function NearMag(levels: seq<nat>, rc: nat): nat
    requires |levels| == 24 && rc < 16
  {
    levels[rc + 1] + levels[rc + 4] + levels[rc + 5]
  }

  function LoCtx(t: Tables, levels: seq<nat>, rc: nat): (ctx: nat)
    requires |levels| == 24 && rc < 16
    ensures ctx < 41
  {
    var mag := NearMag(levels, rc) + (levels[rc + 2] + levels[rc + 8]);
    t.loCtx[rc % 4][rc / 4] + (if mag > 512 then 4 else (mag + 64) / 128)
  }

  function HiBase(rc: nat): nat {
    if (if rc / 4 != 0 then rc / 4 else rc % 4) > 1 then 14 else 7
  }

  function HiStep(mag: nat): (s: nat)
    ensures s <= 6
  {
    if mag % 64 > 12 then 6 else (mag % 64 + 1) / 2
  }

  function EobCtx(eob: nat): nat {
    1 + (if eob > 2 then 1 else 0) + (if eob > 4 then 1 else 0)
  }

  function SkipCtx(t: Tables, plane: nat, above: nat, left: nat): (ctx: nat)
    ensures ctx < 13
  {
    if plane != 0 then 7
    else t.skipCtx[if above % 64 < 4 then above % 64 else 4][if left % 64 < 4 then left % 64 else 4]
  }

  function SignCtx(above: nat, left: nat): (ctx: nat)
    ensures ctx < 3
  {
    var s: int := above / 64 + left / 64 - 2;
    (if s != 0 then 1 else 0) + (if s > 0 then 1 else 0)
  }

  /** The context a block leaves to its neighbours. */
  function Left(t: Tables, v: Block): (level: nat)
    ensures level < 256
  {
    var eob := Eob(t, v, |t.scan|);
    if eob < 0 then 64
    else
      Level(v[0], CulAll(t, v, eob))
  }

  function Level(dc: int, cul: nat): (level: nat)
    ensures level < 256
  {
    (if cul < 63 then cul else 63) + (if dc == 0 then 64 else if dc < 0 then 0 else 128)
  }

  lemma LeftIs(t: Tables, v: Block)
    ensures Left(t, v) == if Eob(t, v, |t.scan|) < 0 then 64 else Level(v[0], CulAll(t, v, Eob(t, v, |t.scan|)))
  {
  }

  /** The sum of all magnitudes. */
  function CulAll(t: Tables, v: Block, eob: nat): nat
    requires eob < 16
  {
    Abs(v[0]) + Cul(t, v, 1, eob)
  }

  function Cul(t: Tables, v: Block, i: nat, eob: nat): nat
    requires eob < 16
    decreases 16 - i, eob
  {
    if i > eob then 0 else Abs(v[t.scan[i]]) + Cul(t, v, i + 1, eob)
  }

  // ---- the calls

  function Equi(bit: nat): Op {
    Bit(16384, bit)
  }

  /** n even bits, most significant first. */
  function BitOps(n: nat, x: nat): seq<Op> {
    if n == 0 then [] else BitOps(n - 1, x / 2) + [Equi(x % 2)]
  }

  function Zeros(n: nat): seq<Op> {
    seq(n, _ => Equi(0))
  }

  function GolombOps(x: nat): seq<Op> {
    BitLenBounds(x + 1);
    var n := BitLen(x + 1) - 1;
    Zeros(n) + ([Equi(1)] + BitOps(n, x + 1))
  }

  /** A token from `base` up to 15, three values at a time. */
  function HiFrom(table: nat, base: nat, tok: nat): seq<Op>
    requires base <= tok
    decreases tok - base
  {
    if tok < base + 3 || base >= 12 then [Sym(table, tok - base)]
    else [Sym(table, 3)] + HiFrom(table, base + 3, tok)
  }

  function HiTokOps(table: nat, tok: nat): seq<Op>
    requires 3 <= tok <= 15
  {
    HiFrom(table, 3, tok)
  }

  function BaseOps(base: nat, br: nat, shown: nat): seq<Op>
    requires shown <= 15
  {
    if shown < 3 then [Sym(base, shown)] else [Sym(base, 3)] + HiTokOps(br, shown)
  }

  function LastOps(base: nat, br: nat, shown: nat): seq<Op>
    requires 1 <= shown <= 15
  {
    if shown < 3 then [Sym(base, shown - 1)] else [Sym(base, 2)] + HiTokOps(br, shown)
  }

  /** The class of an end position below 16: 0, 1, 2..3, 4..7 or 8..15. */
  function EobClass(eob: nat): nat {
    if eob < 2 then eob else if eob < 4 then 2 else if eob < 8 then 3 else 4
  }

  /** Half the size of a class. */
  function EobHalf(bin: nat): nat {
    if bin <= 2 then 1 else if bin == 3 then 2 else 4
  }

  /** Is it in the upper half of its class? */
  function EobUpper(eob: nat): nat {
    if eob >= 3 * EobHalf(EobClass(eob)) then 1 else 0
  }

  function EobLow(eob: nat): nat
    requires 2 <= eob < 16
  {
    eob - (2 + EobUpper(eob)) * EobHalf(EobClass(eob))
  }

  function EobOps(ch: nat, eob: nat): seq<Op>
    requires eob < 16
  {
    var bin := EobClass(eob);
    if eob < 2 then [Sym(EobBin(ch), bin)]
    else [Sym(EobBin(ch), bin)] + ([Sym(EobHi(ch, bin), EobUpper(eob))] + BitOps(bin - 2, EobLow(eob)))
  }

  lemma ShlSmall(x: int, n: nat)
    requires n <= 2
    ensures Shl(x, n) == if n == 0 then x else if n == 1 then 2 * x else 4 * x
  {
    if n == 2 {
      assert Shl(x, n) == 2 * Shl(x, n - 1);
    }
  }

  /** The encoder's arithmetic for the class of an end position. */
  lemma EobNumbers(eob: nat, k: int)
    requires 2 <= eob < 16 && k == BitLen(eob) - 2
    ensures 0 <= k == EobClass(eob) - 2 <= 2
    ensures (if eob >= Shl(3, k) then 1 else 0) == EobUpper(eob)
    ensures Low(eob, k) == EobLow(eob)
  {
    Pow2Values();
    if eob < 4 {
      BitLenUnique(eob, 2);
    } else if eob < 8 {
      BitLenUnique(eob, 3);
    } else {
      BitLenUnique(eob, 4);
    }
    ShlSmall(3, k);
    ShlSmall(2 + EobUpper(eob), k);
    ShlSmall(1, k);
    ShrSplit(2 + EobUpper(eob), EobLow(eob), k);
  }

  /** The token at scan position i, once those after it are known. */
  function TokenOps(t: Tables, ch: nat, v: Block, i: nat, eob: nat): seq<Op>
    requires i < eob < 16
  {
    var rc, levels := t.scan[i], Levels(t, v, i + 1, eob);
    if i > 0 then
      BaseOps(BaseTok(ch, LoCtx(t, levels, rc)), BrTok(ch, HiBase(rc) + HiStep(NearMag(levels, rc))), Shown(v[rc]))
    else
      BaseOps(BaseTok(ch, 0), BrTok(ch, HiStep(NearMag(levels, 0))), Shown(v[0]))
  }

  /** The tokens from scan position n - 1 down to the first. */
  function TokensOps(t: Tables, ch: nat, v: Block, n: nat, eob: nat): seq<Op>
    requires n <= eob < 16
  {
    if n == 0 then [] else TokenOps(t, ch, v, n - 1, eob) + TokensOps(t, ch, v, n - 1, eob)
  }

  function LastTokenOps(t: Tables, ch: nat, v: Block, eob: nat): seq<Op>
    requires eob < 16 && v[t.scan[eob]] != 0
  {
    var rc := t.scan[eob];
    LastOps(EobBase(ch, if eob == 0 then 0 else EobCtx(eob)), BrTok(ch, if eob == 0 then 0 else HiBase(rc)), Shown(v[rc]))
  }

  /** What a large value has beyond 15. */
  function TailOps(x: int): seq<Op> {
    if Abs(x) >= 15 then GolombOps(Abs(x) - 15) else []
  }

  function DcOps(ch: nat, v: Block, ctx: nat): seq<Op> {
    if v[0] == 0 then [] else [Sym(DcSign(ch, ctx), Neg(v[0]))] + TailOps(v[0])
  }

  /** The signs and tails from scan position i on. */
  function SignsOps(t: Tables, v: Block, i: nat, eob: nat): seq<Op>
    requires eob < 16
    decreases 16 - i, eob
  {
    if i > eob then []
    else if v[t.scan[i]] == 0 then SignsOps(t, v, i + 1, eob)
    else [Equi(Neg(v[t.scan[i]]))] + (TailOps(v[t.scan[i]]) + SignsOps(t, v, i + 1, eob))
  }

  /** The calls for a block that is not all zero. */
  function CodedOps(t: Tables, ch: nat, v: Block, eob: nat, sign: nat): seq<Op>
    requires eob < 16 && v[t.scan[eob]] != 0
  {
    EobOps(ch, eob) + (LastTokenOps(t, ch, v, eob) + (TokensOps(t, ch, v, eob, eob)
    + (DcOps(ch, v, sign) + SignsOps(t, v, 1, eob))))
  }

  /** All calls for one block, given the contexts above it and to its left. */
  function BlockOps(t: Tables, plane: nat, v: Block, above: nat, left: nat): seq<Op>
  {
    var eob, ch := Eob(t, v, |t.scan|), if plane != 0 then 1 else 0;
    var skip := SkipTable(SkipCtx(t, plane, above, left));
    if eob < 0 then [Sym(skip, 1)] else [Sym(skip, 0)] + CodedOps(t, ch, v, eob, SignCtx(above, left))
  }
}
