// A lossless 16x16 still as a file: a temporal delimiter, a sequence header and a
// frame (AV1 Bitstream & Decoding Process Specification, sections 5.5 and 5.9).
// Decoding the file of any frame gives the frame.

module Av1File {
  import opened Bits
  import opened Av1Bits
  import S = Av1Still
  import X = Av1Syntax
  import M = MsacModel
  import L = Av1Length

  /** What the headers say of a frame. */
  datatype Frame =
    Frame(w: nat, h: nat, mono: bool, baseQ: nat, ydc: int, udc: int, uac: int, qmatrix: bool, txSelect: bool, reducedTx: bool,
          screen: bool, intrabc: bool, filterIntra: bool, lf: seq<nat>, sharp: nat, update: bool, lossless: bool)

  const NO_FRAME: Frame := Frame(0, 0, false, 0, 0, 0, 0, false, false, false, false, false, false, [0, 0, 0, 0], 0, true, false)

  /** What they say of every still that is encoded. */
  const STILL: Frame := NO_FRAME.(w := 16, h := 16, lossless := true)

  // ---- the fields of the headers

  function SizeFields(): seq<Field> {
    [Field(3, 0), Field(1, 1), Field(1, 1), Field(5, 0)] + [Field(4, 3), Field(4, 3), Field(4, 15), Field(4, 15)]
  }

  function ToolFields(): seq<Field> {
    [Field(1, 0), Field(1, 0), Field(1, 0)] + [Field(1, 0), Field(1, 0), Field(1, 0)]
  }

  function ColorFields(): seq<Field> {
    [Field(1, 0), Field(1, 0), Field(1, 0), Field(1, 1)] + [Field(2, 0), Field(1, 0), Field(1, 0)]
  }

  function SeqFields(): seq<Field> {
    SizeFields() + (ToolFields() + (ColorFields() + ([Field(1, 1)] + Zeros(7))))
  }

  function FlagFields(): seq<Field> {
    [Field(1, 0), Field(1, 0), Field(1, 0), Field(1, 1)]
  }

  function QuantFields(): seq<Field> {
    [Field(8, 0), Field(1, 0), Field(1, 0)] + [Field(1, 0), Field(1, 0), Field(1, 0)]
  }

  function HeadFields(): seq<Field> {
    FlagFields() + (QuantFields() + ([Field(1, 0)] + Zeros(6)))
  }

  /** All values fit, and together the fields have n bits. */
  ghost predicate Sized(fs: seq<Field>, n: nat) {
    ValidFields(fs) && |FieldBits(fs)| == n
  }

  lemma {:induction false} SizedSum(a: seq<Field>, m: nat, b: seq<Field>, n: nat)
    requires Sized(a, m) && Sized(b, n)
    ensures Sized(a + b, m + n)
    decreases |a|
  {
    if a == [] {
      assert a + b == b;
    } else {
      assert (a + b)[1..] == a[1..] + b;
      assert ValidFields(a[1..]) && |FieldBits(a[1..])| == m - a[0].n;
      SizedSum(a[1..], m - a[0].n, b, n);
    }
  }

  lemma SizedOne(f: Field)
    requires f.v < Pow2(f.n)
    ensures Sized([f], f.n)
  {
    assert FieldBits([f]) == U(f.n, f.v) + FieldBits([f][1..]) && FieldBits([]) == [];
  }

  lemma SizedThree(a: Field, b: Field, c: Field)
    requires a.v < Pow2(a.n) && b.v < Pow2(b.n) && c.v < Pow2(c.n)
    ensures Sized([a, b, c], a.n + b.n + c.n)
  {
    SizedOne(a);
    SizedOne(b);
    SizedOne(c);
    SizedSum([a], a.n, [b], b.n);
    SizedSum([a, b], a.n + b.n, [c], c.n);
    assert [a] + [b] == [a, b] && [a, b] + [c] == [a, b, c];
  }

  lemma SizedFour(a: Field, b: Field, c: Field, d: Field)
    requires a.v < Pow2(a.n) && b.v < Pow2(b.n) && c.v < Pow2(c.n) && d.v < Pow2(d.n)
    ensures Sized([a, b, c, d], a.n + b.n + c.n + d.n)
  {
    SizedThree(a, b, c);
    SizedOne(d);
    SizedSum([a, b, c], a.n + b.n + c.n, [d], d.n);
    assert [a, b, c] + [d] == [a, b, c, d];
  }

  lemma {:induction false} SizedZeros(n: nat)
    ensures Sized(Zeros(n), n)
  {
    Pow2Values();
    if n > 0 {
      SizedZeros(n - 1);
      SizedOne(Field(1, 0));
      SizedSum([Field(1, 0)], 1, Zeros(n - 1), n - 1);
      assert [Field(1, 0)] + Zeros(n - 1) == Zeros(n);
    }
  }

  lemma Powers()
    ensures Pow2(1) == 2 && Pow2(2) == 4 && Pow2(3) == 8 && Pow2(4) == 16 && Pow2(5) == 32 && Pow2(8) == 256
  {
    Pow2Values();
    assert Shl(1, 5) == 2 * Shl(1, 4) && Shl(1, 3) == 2 * Shl(1, 2) && Shl(1, 2) == 2 * Shl(1, 1);
  }

  lemma PartsSized()
    ensures Sized(SizeFields(), 26) && Sized(ToolFields(), 6) && Sized(ColorFields(), 8)
    ensures Sized(FlagFields(), 4) && Sized(QuantFields(), 13)
  {
    Powers();
    var z, o := Field(1, 0), Field(1, 1);
    SizedFour(Field(3, 0), o, o, Field(5, 0));
    SizedFour(Field(4, 3), Field(4, 3), Field(4, 15), Field(4, 15));
    SizedSum([Field(3, 0), o, o, Field(5, 0)], 10, [Field(4, 3), Field(4, 3), Field(4, 15), Field(4, 15)], 16);
    SizedThree(z, z, z);
    SizedSum([z, z, z], 3, [z, z, z], 3);
    SizedFour(z, z, z, o);
    SizedThree(Field(2, 0), z, z);
    SizedSum([z, z, z, o], 4, [Field(2, 0), z, z], 4);
    SizedThree(Field(8, 0), z, z);
    SizedSum([Field(8, 0), z, z], 10, [z, z, z], 3);
  }

  lemma SeqSize()
    ensures |FieldBits(SeqFields())| == 48 && ValidFields(SeqFields())
  {
    PartsSized();
    Powers();
    SizedOne(Field(1, 1));
    SizedZeros(7);
    SizedSum([Field(1, 1)], 1, Zeros(7), 7);
    SizedSum(ColorFields(), 8, [Field(1, 1)] + Zeros(7), 8);
    SizedSum(ToolFields(), 6, ColorFields() + ([Field(1, 1)] + Zeros(7)), 16);
    SizedSum(SizeFields(), 26, ToolFields() + (ColorFields() + ([Field(1, 1)] + Zeros(7))), 22);
  }

  lemma HeadSize()
    ensures |FieldBits(HeadFields())| == 24 && ValidFields(HeadFields())
  {
    PartsSized();
    Powers();
    SizedOne(Field(1, 0));
    SizedZeros(6);
    SizedSum([Field(1, 0)], 1, Zeros(6), 6);
    SizedSum(QuantFields(), 13, [Field(1, 0)] + Zeros(6), 7);
    SizedSum(FlagFields(), 4, QuantFields() + ([Field(1, 0)] + Zeros(6)), 20);
  }

  function SeqBytes(): seq<Byte> {
    SeqSize();
    Pack(FieldBits(SeqFields()), 6)
  }

  function HeadBytes(): seq<Byte> {
    HeadSize();
    Pack(FieldBits(HeadFields()), 3)
  }

  // ---- writing

  method WriteSeq() returns (data: seq<Byte>)
    ensures data == SeqBytes()
  {
    var b := new BitWriter();
    WriteSize(b);
    WriteTools(b);
    WriteColor(b);
    assert |b.bits| == 40 && Whole(41) == 48;
    b.Trailing();
    SeqJoined(b.fields);
    SeqSize();
    data := b.Payload();
  }

  method WriteSize(b: BitWriter)
    requires b.Valid()
    modifies b
    ensures b.Valid() && b.fields == old(b.fields) + SizeFields() && |b.bits| == |old(b.bits)| + 26
  {
    Pow2Values();
    b.Put(3, 0);
    b.Put(1, 1);
    b.Put(1, 1);
    b.Put(5, 0);
    b.Put(4, 3);
    b.Put(4, 3);
    b.Put(4, 15);
    b.Put(4, 15);
  }

  method WriteTools(b: BitWriter)
    requires b.Valid()
    modifies b
    ensures b.Valid() && b.fields == old(b.fields) + ToolFields() && |b.bits| == |old(b.bits)| + 6
  {
    Pow2Values();
    b.Put(1, 0);
    b.Put(1, 0);
    b.Put(1, 0);
    b.Put(1, 0);
    b.Put(1, 0);
    b.Put(1, 0);
  }

  method WriteColor(b: BitWriter)
    requires b.Valid()
    modifies b
    ensures b.Valid() && b.fields == old(b.fields) + ColorFields() && |b.bits| == |old(b.bits)| + 8
  {
    Pow2Values();
    b.Put(1, 0);
    b.Put(1, 0);
    b.Put(1, 0);
    b.Put(1, 1);
    b.Put(2, 0);
    b.Put(1, 0);
    b.Put(1, 0);
  }

  method WriteHead() returns (data: seq<Byte>)
    ensures data == HeadBytes()
  {
    var b := new BitWriter();
    WriteFlags(b);
    WriteQuant(b);
    Pow2Values();
    b.Put(1, 0);
    assert |b.bits| == 18 && Whole(18) == 24;
    b.Align();
    HeadJoined(b.fields);
    HeadSize();
    data := b.Payload();
  }

  lemma HeadJoined(fs: seq<Field>)
    requires fs == [] + FlagFields() + QuantFields() + [Field(1, 0)] + Zeros(6)
    ensures fs == HeadFields()
  {
  }

  lemma SeqJoined(fs: seq<Field>)
    requires fs == [] + SizeFields() + ToolFields() + ColorFields() + [Field(1, 1)] + Zeros(7)
    ensures fs == SeqFields()
  {
  }

  method WriteFlags(b: BitWriter)
    requires b.Valid()
    modifies b
    ensures b.Valid() && b.fields == old(b.fields) + FlagFields() && |b.bits| == |old(b.bits)| + 4
  {
    Pow2Values();
    b.Put(1, 0);
    b.Put(1, 0);
    b.Put(1, 0);
    b.Put(1, 1);
  }

  method WriteQuant(b: BitWriter)
    requires b.Valid()
    modifies b
    ensures b.Valid() && b.fields == old(b.fields) + QuantFields() && |b.bits| == |old(b.bits)| + 13
  {
    Pow2Values();
    b.Put(8, 0);
    b.Put(1, 0);
    b.Put(1, 0);
    b.Put(1, 0);
    b.Put(1, 0);
    b.Put(1, 0);
  }

  // ---- reading

  lemma Known(fs: seq<Field>, m: nat, rest: seq<Byte>)
    requires |FieldBits(fs)| == 8 * m
    ensures FieldBits(fs) <= BitsFrom(Pack(FieldBits(fs), m) + rest, 0)
  {
    PackBits(FieldBits(fs), m, rest);
  }

  /** A reader that knows what is in the sequence header that is written. */
  method OpenSeq(payload: seq<Byte>, ghost ours: bool) returns (b: BitReader)
    requires ours ==> payload == SeqBytes()
    ensures fresh(b) && b.Valid() && b.data == payload && b.i == b.next == 0
    ensures ours ==> AtSeq(b, 0, 0) && |payload| == 6
  {
    ghost var known: seq<Field> := [];
    if ours {
      SeqSize();
      Known(SeqFields(), 6, []);
      assert payload + [] == payload;
      known := SeqFields();
    }
    b := new BitReader(payload, known);
    if ours {
      SeqIs();
    }
  }

  /** The fields of the sequence header, one by one. */
  ghost predicate IsSeq(fs: seq<Field>) {
    && |fs| == 29 && fs[0] == Field(3, 0) && fs[1] == Field(1, 1) && fs[2] == Field(1, 1) && fs[3] == Field(5, 0)
    && fs[4] == Field(4, 3) && fs[5] == Field(4, 3) && fs[6] == Field(4, 15) && fs[7] == Field(4, 15)
    && (forall k :: 8 <= k < 17 ==> fs[k] == Field(1, 0)) && fs[17] == Field(1, 1) && fs[18] == Field(2, 0)
    && fs[19] == Field(1, 0) && fs[20] == Field(1, 0) && fs[21] == Field(1, 1)
    && (forall k :: 21 < k < 29 ==> fs[k] == Field(1, 0))
  }

  /** The reader is at field n of that header, and at bit i. */
  ghost predicate AtSeq(b: BitReader, n: nat, i: nat)
    reads b
  {
    IsSeq(b.known) && b.next == n && b.i == i
  }

  /** The sequence header; `ours` if it is the one that is written. */
  method ReadSeq(payload: seq<Byte>, fr: Frame, ghost ours: bool) returns (r: Result<Frame>)
    requires ours ==> payload == SeqBytes()
    ensures ours && fr == NO_FRAME ==> r == Ok(STILL.(lossless := false))
  {
    var b := OpenSeq(payload, ours);
    var fr1 :- ReadSize(b, fr);
    var fr2 :- ReadTools(b, fr1);
    var fr3 :- ReadColor(b, fr2);
    if ours {
      SeqEnd(b);
    }
    var end :- b.Trailing();
    r := Ok(fr3);
  }

  lemma SeqIs()
    ensures IsSeq(SeqFields())
  {
    var size, tools, color, end := SizeFields(), ToolFields(), ColorFields(), [Field(1, 1)] + Zeros(7);
    assert forall k :: 0 <= k < 8 ==> SeqFields()[k] == size[k];
    assert forall k :: 8 <= k < 14 ==> SeqFields()[k] == tools[k - 8];
    assert forall k :: 14 <= k < 21 ==> SeqFields()[k] == color[k - 14];
    assert forall k :: 21 <= k < 29 ==> SeqFields()[k] == end[k - 21];
  }

  lemma SeqEnd(b: BitReader)
    requires AtSeq(b, 21, 40) && |b.data| == 6
    ensures b.KnowsEnd()
  {
  }

  method ReadSize(b: BitReader, fr: Frame) returns (r: Result<Frame>)
    requires b.Valid()
    modifies b
    ensures b.Valid()
    ensures old(AtSeq(b, 0, 0)) ==> r == Ok(fr.(w := 16, h := 16)) && AtSeq(b, 8, 26)
  {
    var ok :- ReadProfile(b);
    var wb :- b.Get(4);
    var hb :- b.Get(4);
    var w :- b.Get(wb + 1);
    var h :- b.Get(hb + 1);
    if w + 1 > 64 || h + 1 > 64 {
      return Err(UNSUPPORTED);
    }
    r := Ok(fr.(w := w + 1, h := h + 1));
  }

  method ReadProfile(b: BitReader) returns (r: Result<bool>)
    requires b.Valid()
    modifies b
    ensures b.Valid()
    ensures old(AtSeq(b, 0, 0)) ==> r.Ok? && AtSeq(b, 4, 10)
  {
    var profile :- b.Get(3);
    var still :- b.Flag();
    var reduced :- b.Flag();
    if profile != 0 || !still || !reduced {
      return Err(UNSUPPORTED);
    }
    var level :- b.Get(5);
    if level > 31 {
      return Err(INTEGRITY_FAIL);
    }
    r := Ok(true);
  }

  method ReadTools(b: BitReader, fr: Frame) returns (r: Result<Frame>)
    requires b.Valid()
    modifies b
    ensures b.Valid()
    ensures old(AtSeq(b, 8, 26)) ==> r == Ok(fr.(filterIntra := false)) && AtSeq(b, 14, 32)
  {
    var large :- b.Flag();
    if large {
      return Err(UNSUPPORTED);
    }
    var filterIntra :- b.Flag();
    var edge :- b.Flag();
    var superres :- b.Flag();
    if superres {
      return Err(UNSUPPORTED);
    }
    var cdef :- b.Flag();
    if cdef {
      return Err(UNSUPPORTED);
    }
    var restoration :- b.Flag();
    if restoration {
      return Err(UNSUPPORTED);
    }
    r := Ok(fr.(filterIntra := filterIntra));
  }

  method ReadColor(b: BitReader, fr: Frame) returns (r: Result<Frame>)
    requires b.Valid()
    modifies b
    ensures b.Valid()
    ensures old(AtSeq(b, 14, 32)) ==> r == Ok(fr.(mono := false)) && AtSeq(b, 21, 40)
  {
    var high :- b.Flag();
    if high {
      return Err(UNSUPPORTED);
    }
    var mono :- b.Flag();
    var description :- b.Flag();
    if description {
      return Err(UNSUPPORTED);
    }
    var range :- b.Flag();
    if !mono {
      var position :- b.Get(2);
      var separate :- b.Flag();
      if separate {
        return Err(UNSUPPORTED);
      }
    }
    var grain :- b.Flag();
    if grain {
      return Err(UNSUPPORTED);
    }
    r := Ok(fr.(mono := mono));
  }

  method OpenHead(payload: seq<Byte>, ghost ours: bool, ghost tile: seq<Byte>) returns (b: BitReader)
    requires ours ==> payload == HeadBytes() + tile
    ensures fresh(b) && b.Valid() && b.data == payload && b.i == b.next == 0
    ensures ours ==> AtHead(b, 0, 0) && 3 <= |payload| && payload[3..] == tile
  {
    ghost var known: seq<Field> := [];
    if ours {
      HeadSize();
      Known(HeadFields(), 3, tile);
      known := HeadFields();
    }
    b := new BitReader(payload, known);
    if ours {
      HeadIs();
    }
  }

  /** The fields of the frame header, one by one. */
  ghost predicate IsHead(fs: seq<Field>) {
    && |fs| == 17 && fs[0] == Field(1, 0) && fs[1] == Field(1, 0) && fs[2] == Field(1, 0) && fs[3] == Field(1, 1)
    && fs[4] == Field(8, 0) && forall k :: 4 < k < 17 ==> fs[k] == Field(1, 0)
  }

  ghost predicate AtHead(b: BitReader, n: nat, i: nat)
    reads b
  {
    IsHead(b.known) && b.next == n && b.i == i
  }

  /** The frame header, and the tile that follows it. */
  method ReadHead(payload: seq<Byte>, fr: Frame, ghost ours: bool, ghost tile: seq<Byte>) returns (r: Result<(Frame, seq<Byte>)>)
    requires ours ==> payload == HeadBytes() + tile
    ensures ours && fr == STILL.(lossless := false) ==> r == Ok((STILL, tile))
  {
    var b := OpenHead(payload, ours, tile);
    var fr1 :- ReadFlags(b, fr);
    var fr2 :- ReadQuant(b, fr1);
    var fr3 :- ReadFilter(b, fr2);
    var reduced :- b.Flag();
    if ours && fr == STILL.(lossless := false) {
      HeadEnd(b);
    }
    var zeros :- b.Align();
    r := Ok((fr3.(reducedTx := reduced), payload[b.i / 8..]));
  }

  lemma HeadIs()
    ensures IsHead(HeadFields())
  {
    var flags, quant, end := FlagFields(), QuantFields(), [Field(1, 0)] + Zeros(6);
    assert forall k :: 0 <= k < 4 ==> HeadFields()[k] == flags[k];
    assert forall k :: 4 <= k < 10 ==> HeadFields()[k] == quant[k - 4];
    assert forall k :: 10 <= k < 17 ==> HeadFields()[k] == end[k - 10];
  }

  lemma HeadEnd(b: BitReader)
    requires AtHead(b, 11, 18)
    ensures b.KnowsZeros(Whole(b.i) - b.i) && Whole(b.i) == 24
  {
  }

  method ReadFlags(b: BitReader, fr: Frame) returns (r: Result<Frame>)
    requires b.Valid()
    modifies b
    ensures b.Valid()
    ensures old(AtHead(b, 0, 0)) ==> r == Ok(fr.(update := true, screen := false, intrabc := false)) && AtHead(b, 4, 4)
  {
    var noUpdate :- b.Flag();
    var screen :- b.Flag();
    if screen {
      var forced :- b.Flag();
    }
    var render :- b.Flag();
    if render {
      return Err(UNSUPPORTED);
    }
    var intrabc := false;
    if screen {
      intrabc :- b.Flag();
    }
    if intrabc {
      return Err(UNSUPPORTED);
    }
    var uniform :- b.Flag();
    if !uniform {
      return Err(UNSUPPORTED);
    }
    r := Ok(fr.(update := !noUpdate, screen := screen, intrabc := intrabc));
  }

  /** A difference, if a flag says there is one. */
  method ReadDelta(b: BitReader) returns (r: Result<int>)
    requires b.Valid()
    modifies b
    ensures b.Valid() && b.i >= old(b.i)
    ensures old(b.next) < |b.known| && b.known[old(b.next)] == Field(1, 0) ==> r == Ok(0) && b.next == old(b.next) + 1 && b.i == old(b.i) + 1
  {
    var coded :- b.Flag();
    if coded {
      r := b.Signed(7);
    } else {
      r := Ok(0);
    }
  }

  method ReadQuant(b: BitReader, fr: Frame) returns (r: Result<Frame>)
    requires b.Valid()
    modifies b
    ensures b.Valid()
    ensures old(AtHead(b, 4, 4)) && !fr.mono ==>
              r == Ok(fr.(baseQ := 0, ydc := 0, udc := 0, uac := 0, qmatrix := false, lossless := true)) && AtHead(b, 10, 17)
  {
    var baseQ :- b.Get(8);
    var ydc :- ReadDelta(b);
    var udc, uac := fr.udc, fr.uac;
    if !fr.mono {
      udc :- ReadDelta(b);
      uac :- ReadDelta(b);
    }
    var qmatrix :- b.Flag();
    if qmatrix {
      return Err(UNSUPPORTED);
    }
    var segmentation :- b.Flag();
    if segmentation {
      return Err(UNSUPPORTED);
    }
    if baseQ > 0 {
      var delta :- b.Flag();
      if delta {
        return Err(UNSUPPORTED);
      }
    }
    var lossless := baseQ == 0 && ydc == 0 && udc == 0 && uac == 0;
    r := Ok(fr.(baseQ := baseQ, ydc := ydc, udc := udc, uac := uac, qmatrix := qmatrix, lossless := lossless));
  }

  /** The loop filter, which a lossless frame has not, and the transform choice. */
  method ReadFilter(b: BitReader, fr: Frame) returns (r: Result<Frame>)
    requires b.Valid()
    modifies b
    ensures b.Valid() && b.i >= old(b.i)
    ensures fr.lossless ==> r == Ok(fr.(txSelect := false)) && b.next == old(b.next) && b.i == old(b.i)
  {
    if fr.lossless {
      return Ok(fr.(txSelect := false));
    }
    var lf0 :- b.Get(6);
    var lf1 :- b.Get(6);
    var lf := [lf0, lf1, 0, 0];
    if !fr.mono && (lf0 != 0 || lf1 != 0) {
      var lf2 :- b.Get(6);
      var lf3 :- b.Get(6);
      lf := [lf0, lf1, lf2, lf3];
    }
    var sharp :- b.Get(3);
    var deltas :- b.Flag();
    if deltas {
      var changed :- b.Flag();
      if changed {
        var done :- SkipDeltas(b, 10);
      }
    }
    var txSelect :- b.Flag();
    r := Ok(fr.(lf := lf, sharp := sharp, txSelect := txSelect));
  }

  method SkipDeltas(b: BitReader, n: nat) returns (r: Result<bool>)
    requires b.Valid()
    modifies b
    ensures b.Valid() && b.i >= old(b.i)
  {
    for k := 0 to n
      invariant b.Valid() && b.i >= old(b.i)
    {
      var coded :- b.Flag();
      if coded {
        var delta :- b.Signed(7);
      }
    }
    r := Ok(true);
  }

  // ---- the file

  function File(tile: seq<Byte>): seq<Byte> {
    Unit(2, []) + Unit(1, SeqBytes()) + Unit(6, HeadBytes() + tile)
  }

  /** The three units come back, if the last is not too large for its size. */
  lemma FileUnits(tile: seq<Byte>)
    requires |tile| + 3 < Pow2(56)
    ensures UnitsFrom(File(tile), 0) == Ok([(2, []), (1, SeqBytes()), (6, HeadBytes() + tile)])
  {
    var a, b, c := Unit(2, []), Unit(1, SeqBytes()), Unit(6, HeadBytes() + tile);
    var data := File(tile);
    Pow2Mono(3, 56);
    Powers();
    ThreeParts(data, a, b, c);
    ThreeUnits(data, a, b, c, SeqBytes(), HeadBytes() + tile);
  }

  lemma ThreeUnits(data: seq<Byte>, a: seq<Byte>, b: seq<Byte>, c: seq<Byte>, first: seq<Byte>, second: seq<Byte>)
    requires a == Unit(2, []) && b == Unit(1, first) && c == Unit(6, second)
    requires data == [] + a + (b + c) && data == a + b + c && data == (a + b) + c + []
    requires 0 < Pow2(56) && |first| < Pow2(56) && |second| < Pow2(56)
    ensures UnitsFrom(data, 0) == Ok([(2, []), (1, first), (6, second)])
  {
    var none: seq<Byte> := [];
    UnitBack(data, none, 2, none, b + c, |none + a|);
    UnitBack(data, a, 1, first, c, |a + b|);
    UnitBack(data, a + b, 6, second, none, |(a + b) + c|);
    NoUnits(data);
    assert |none + a| == |a| && |(a + b) + c| == |data|;
    Three((2, none), (1, first), (6, second), UnitsFrom(data, |a|), UnitsFrom(data, |a + b|), UnitsFrom(data, |data|));
  }

  lemma NoUnits(data: seq<Byte>)
    ensures UnitsFrom(data, |data|) == Ok([])
  {
  }

  lemma Three(u: (nat, seq<Byte>), v: (nat, seq<Byte>), w: (nat, seq<Byte>), r: Result<Units>, s: Result<Units>, t: Result<Units>)
    requires r == Consed(v, s) && s == Consed(w, t) && t == Ok([])
    ensures Consed(u, r) == Ok([u, v, w])
  {
    assert [w] + [] == [w] && [v] + [w] == [v, w] && [u] + [v, w] == [u, v, w];
  }

  lemma ThreeParts(data: seq<Byte>, a: seq<Byte>, b: seq<Byte>, c: seq<Byte>)
    requires data == a + b + c
    ensures data == [] + a + (b + c) && data == a + b + c && data == (a + b) + c + []
    ensures |[] + a| == |a| && |(a + b) + c| == |data|
  {
  }

  /** What has been read of a file. */
  datatype Progress = Progress(fr: Frame, tile: seq<Byte>, sawSeq: bool, sawFrame: bool)

  /** After k units of a file that is written. */
  ghost function After(tile: seq<Byte>, k: nat): Progress {
    if k < 2 then Progress(NO_FRAME, [], false, false)
    else if k < 3 then Progress(STILL.(lossless := false), [], true, false)
    else Progress(STILL, tile, true, true)
  }

  method TakeUnit(typ: nat, payload: seq<Byte>, p: Progress, ghost ours: bool, ghost tile: seq<Byte>, ghost k: nat)
    returns (r: Result<Progress>)
    requires ours ==> k < 3 && p == After(tile, k) && (typ, payload) == [(2, []), (1, SeqBytes()), (6, HeadBytes() + tile)][k]
    ensures ours ==> r == Ok(After(tile, k + 1))
  {
    if typ == 1 {
      var fr :- ReadSeq(payload, p.fr, ours);
      r := Ok(p.(fr := fr, sawSeq := true));
    } else if typ == 6 {
      if !p.sawSeq {
        return Err(INTEGRITY_FAIL);
      }
      var head :- ReadHead(payload, p.fr, ours, tile);
      r := Ok(Progress(head.0, head.1, p.sawSeq, true));
    } else if typ == 2 || typ == 15 {
      r := Ok(p);
    } else {
      r := Err(UNSUPPORTED);
    }
  }

  /** The headers of a file, and its tile. */
  method Parse(data: seq<Byte>, ghost ours: bool, ghost tile: seq<Byte>) returns (r: Result<(Frame, seq<Byte>)>)
    requires ours ==> data == File(tile) && |tile| + 3 < Pow2(56)
    ensures ours ==> r == Ok((STILL, tile))
    ensures data == [] ==> r == Err(BOUNDS)
  {
    if data == [] {
      return Err(BOUNDS);
    }
    if ours {
      FileUnits(tile);
    }
    var units :- ReadUnits(data);
    var p := Progress(NO_FRAME, [], false, false);
    for k := 0 to |units|
      invariant ours ==> p == After(tile, k)
    {
      p :- TakeUnit(units[k].0, units[k].1, p, ours, tile, k);
    }
    if !p.sawFrame {
      return Err(INTEGRITY_FAIL);
    }
    r := Ok((p.fr, p.tile));
  }

  // ---- whole files

  /** Only frames of 384 bytes are encoded. */
  method Encode(t: X.Tables, tables: seq<seq<nat>>, data: seq<Byte>) returns (r: Result<seq<Byte>>, ghost tile: seq<Byte>)
    requires M.ValidTables(tables) && S.Shaped(tables)
    ensures data == [] ==> r == Err(BOUNDS)
    ensures data != [] && |data| != 384 ==> r == Err(UNSUPPORTED)
    ensures |data| == 384 ==> r == Ok(File(tile)) && S.TileOf(t, tables, tile, data) && |tile| + 3 < Pow2(56)
  {
    tile := [];
    if data == [] {
      return Err(BOUNDS), tile;
    }
    if |data| != 384 {
      return Err(UNSUPPORTED), tile;
    }
    var coded := EncodeFrame(t, tables, data);
    tile := coded;
    var file := WriteFile(coded);
    r := Ok(file);
  }

  method EncodeFrame(t: X.Tables, tables: seq<seq<nat>>, data: seq<Byte>) returns (tile: seq<Byte>)
    requires M.ValidTables(tables) && S.Shaped(tables) && |data| == 384
    ensures S.TileOf(t, tables, tile, data) && |tile| + 3 < Pow2(56)
  {
    tile := S.EncodeTile(t, tables, data);
    L.TileLength(t, tables, tile, data);
    L.FitsSize(|tile|);
  }

  method WriteFile(tile: seq<Byte>) returns (file: seq<Byte>)
    ensures file == File(tile)
  {
    var head := WriteHead();
    var delimiter := WriteUnit(2, []);
    var first := WriteSeq();
    var unit := WriteUnit(1, first);
    var frame := WriteUnit(6, head + tile);
    file := delimiter + unit + frame;
  }

  /** Decodes a file that was encoded: its headers say what the decoder of tiles
      takes for granted, and the tile gives the frame. */
  method Decode(t: X.Tables, tables: seq<seq<nat>>, file: seq<Byte>, ghost tile: seq<Byte>, ghost data: seq<int>)
    returns (r: Result<seq<int>>)
    requires M.ValidTables(tables) && S.Shaped(tables)
    requires file == File(tile) && S.TileOf(t, tables, tile, data) && |tile| + 3 < Pow2(56)
    ensures r == Ok(data)
  {
    var parsed := Parse(file, true, tile);
    var fr, found := parsed.value.0, parsed.value.1;
    if fr != STILL {
      return Err(UNSUPPORTED);
    }
    var ok, pic := S.DecodeTile(t, tables, found, data);
    r := if ok then Ok(pic) else Err(UNSUPPORTED);
  }

  /** Every frame survives as a file; anything else is refused. */
  method Transcode(t: X.Tables, tables: seq<seq<nat>>, data: seq<Byte>) returns (r: Result<seq<int>>)
    requires M.ValidTables(tables) && S.Shaped(tables)
    ensures r == if data == [] then Err(BOUNDS) else if |data| != 384 then Err(UNSUPPORTED) else Ok(data)
  {
    var file, tile := Encode(t, tables, data);
    if file.Err? {
      return Err(file.code);
    }
    r := Decode(t, tables, file.value, tile, data);
  }
}
