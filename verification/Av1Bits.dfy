// The bytes around an AV1 still: header fields bit by bit (AV1 Bitstream &
// Decoding Process Specification, section 4.10.2), sizes in LEB128 (section 4.10.5)
// and open bitstream units (section 5.3).

module Av1Bits {
  import opened Bits

  type Bit = b: nat | b < 2

  datatype Result<+T> = Ok(value: T) | Err(code: string) {
    predicate IsFailure() { Err? }
    function PropagateFailure<U>(): Result<U>
      requires Err?
    {
      Err(code)
    }
    function Extract(): T
      requires Ok?
    {
      value
    }
  }

  const INTEGRITY_FAIL := "INTEGRITY_FAIL"
  const UNSUPPORTED := "UNSUPPORTED"
  const BOUNDS := "BOUNDS"

  // ---- numbers in bits, most significant first

  function U(n: nat, v: nat): (s: seq<Bit>)
    ensures |s| == n
  {
    if n == 0 then [] else U(n - 1, v / 2) + [v % 2]
  }

  function Num(s: seq<Bit>): nat {
    if s == [] then 0 else 2 * Num(s[..|s| - 1]) + s[|s| - 1]
  }

  lemma {:induction false} NumU(n: nat, v: nat)
    requires v < Pow2(n)
    ensures Num(U(n, v)) == v
  {
    if n > 0 {
      NumU(n - 1, v / 2);
      assert U(n, v)[..n - 1] == U(n - 1, v / 2);
    }
  }

  lemma {:induction false} NumBound(s: seq<Bit>)
    ensures Num(s) < Pow2(|s|)
  {
    if s != [] {
      NumBound(s[..|s| - 1]);
    }
  }

  lemma NumSnoc(s: seq<Bit>, b: Bit)
    ensures Num(s + [b]) == 2 * Num(s) + b
  {
    assert (s + [b])[..|s|] == s;
  }

  /** Bit i of the bytes, the high bits of a byte first. */
  function BitAt(data: seq<Byte>, i: nat): Bit
    requires i < 8 * |data|
  {
    ShrNat(data[i / 8], 7 - i % 8);
    Shr(data[i / 8], 7 - i % 8) % 2
  }

  /** The bits from i on. */
  function BitsFrom(data: seq<Byte>, i: nat): (s: seq<Bit>)
    requires i <= 8 * |data|
    ensures |s| == 8 * |data| - i
  {
    seq<Bit>(8 * |data| - i, k requires 0 <= k < 8 * |data| - i => BitAt(data, i + k))
  }

  /** The first m bytes that some bits make. */
  function Pack(s: seq<Bit>, m: nat): (data: seq<Byte>)
    requires 8 * m <= |s|
    ensures |data| == m
  {
    if m == 0 then []
    else
      EightBits(s[8 * (m - 1)..8 * m]);
      Pack(s, m - 1) + [Num(s[8 * (m - 1)..8 * m])]
  }

  lemma EightBits(s: seq<Bit>)
    requires |s| == 8
    ensures Num(s) < 256
  {
    NumBound(s);
    Pow2Values();
  }

  lemma {:induction false} ShrNum(s: seq<Bit>, k: nat)
    requires k <= |s|
    ensures Shr(Num(s), k) == Num(s[..|s| - k])
  {
    if k == 0 {
      assert s[..|s|] == s;
    } else {
      ShrNum(s, k - 1);
      var t := s[..|s| - (k - 1)];
      assert t[..|t| - 1] == s[..|s| - k];
    }
  }

  lemma {:induction false} PackAt(s: seq<Bit>, m: nat, j: nat)
    requires 8 * m <= |s| && j < m
    ensures Pack(s, m)[j] == Num(s[8 * j..8 * (j + 1)])
  {
    if j < m - 1 {
      PackAt(s, m - 1, j);
    }
  }

  /** Bits packed into bytes come out again. */
  lemma PackBits(s: seq<Bit>, m: nat, rest: seq<Byte>)
    requires |s| == 8 * m
    ensures BitsFrom(Pack(s, m) + rest, 0) == s + BitsFrom(rest, 0)
  {
    var data := Pack(s, m) + rest;
    forall i | 0 <= i < 8 * |data|
      ensures BitAt(data, i) == (s + BitsFrom(rest, 0))[i]
    {
      if i < 8 * m {
        PackedBit(s, m, i, i / 8);
        assert data[i / 8] == Pack(s, m)[i / 8];
      } else {
        ShiftedBit(Pack(s, m), rest, i);
      }
    }
  }

  lemma ShiftedBit(head: seq<Byte>, rest: seq<Byte>, i: nat)
    requires 8 * |head| <= i < 8 * |head + rest|
    ensures BitAt(head + rest, i) == BitsFrom(rest, 0)[i - 8 * |head|]
  {
    assert i / 8 - |head| == (i - 8 * |head|) / 8 && i % 8 == (i - 8 * |head|) % 8;
    assert (head + rest)[i / 8] == rest[i / 8 - |head|];
  }

  lemma PackedBit(s: seq<Bit>, m: nat, i: nat, j: nat)
    requires |s| == 8 * m && i < 8 * m && j == i / 8
    ensures BitAt(Pack(s, m), i) == s[i]
  {
    var byte, k := s[8 * j..8 * (j + 1)], i % 8;
    assert i == 8 * j + k;
    PackAt(s, m, j);
    NumBit(byte, k, 7 - k);
  }

  lemma NumBit(byte: seq<Bit>, k: nat, n: nat)
    requires k < |byte| && n == |byte| - 1 - k
    ensures Shr(Num(byte), n) % 2 == byte[k]
  {
    ShrNum(byte, n);
    NumLast(byte[..|byte| - n]);
  }

  lemma NumLast(s: seq<Bit>)
    requires s != []
    ensures Num(s) % 2 == s[|s| - 1]
  {
  }

  // ---- fields

  /** A value in n bits. */
  datatype Field = Field(n: nat, v: nat)

  function FieldBits(fs: seq<Field>): seq<Bit> {
    if fs == [] then [] else U(fs[0].n, fs[0].v) + FieldBits(fs[1..])
  }

  predicate ValidFields(fs: seq<Field>) {
    forall i :: 0 <= i < |fs| ==> fs[i].v < Pow2(fs[i].n)
  }

  lemma {:induction false} FieldsSnoc(fs: seq<Field>, f: Field)
    ensures FieldBits(fs + [f]) == FieldBits(fs) + U(f.n, f.v)
  {
    if fs == [] {
      assert [] + [f] == [f] && [f][1..] == [];
      assert FieldBits([]) == [];
    } else {
      FieldsSnoc(fs[1..], f);
      assert (fs + [f])[1..] == fs[1..] + [f];
    }
  }

  /** The number of bits up to the next whole byte. */
  function Whole(n: nat): nat {
    (n + 7) / 8 * 8
  }

  lemma WholeBounds(n: nat)
    ensures n <= Whole(n) < n + 8 && Whole(n) % 8 == 0
  {
  }

  function Zeros(n: nat): seq<Field> {
    seq(n, _ => Field(1, 0))
  }

  lemma ZerosMore(fs: seq<Field>, n: nat)
    ensures fs + Zeros(n) + [Field(1, 0)] == fs + Zeros(n + 1)
  {
    assert Zeros(n) + [Field(1, 0)] == Zeros(n + 1);
  }

  class BitWriter {
    var bits: seq<Bit>
    ghost var fields: seq<Field>

    ghost predicate Valid()
      reads this
    {
      bits == FieldBits(fields) && ValidFields(fields)
    }

    constructor ()
      ensures Valid() && fields == []
    {
      bits, fields := [], [];
    }

    method Put(n: nat, v: nat)
      requires Valid() && v < Pow2(n)
      modifies this
      ensures Valid() && fields == old(fields) + [Field(n, v)] && |bits| == |old(bits)| + n
    {
      ghost var before := bits;
      ShrNat(v, n);
      for k := 0 to n
        invariant Shr(v, n - k) >= 0 && bits == before + U(k, Shr(v, n - k)) && fields == old(fields)
      {
        ShrNat(v, n - 1 - k);
        bits := bits + [Shr(v, n - 1 - k) % 2];
      }
      FieldsSnoc(fields, Field(n, v));
      fields := fields + [Field(n, v)];
    }

    method Align()
      requires Valid()
      modifies this
      ensures Valid() && |bits| == Whole(|old(bits)|) && fields == old(fields) + Zeros(|bits| - |old(bits)|)
    {
      Pow2Values();
      ghost var start := |bits|;
      WholeBounds(start);
      assert fields + Zeros(0) == fields;
      while |bits| % 8 != 0
        invariant Valid() && start <= |bits| <= Whole(start) && fields == old(fields) + Zeros(|bits| - start)
        decreases Whole(start) - |bits|
      {
        ZerosMore(old(fields), |bits| - start);
        Put(1, 0);
      }
    }

    method Trailing()
      requires Valid()
      modifies this
      ensures Valid() && |bits| == Whole(|old(bits)| + 1)
      ensures fields == old(fields) + [Field(1, 1)] + Zeros(|bits| - |old(bits)| - 1)
    {
      Pow2Values();
      Put(1, 1);
      Align();
    }

    method Payload() returns (data: seq<Byte>)
      requires Valid() && |bits| % 8 == 0
      ensures data == Pack(bits, |bits| / 8)
    {
      data := [];
      var acc: nat, k: nat := 0, 0;
      ghost var m: nat, lo: nat, part: seq<Bit> := 0, 0, [];
      for i := 0 to |bits|
        invariant k < 8 && lo == 8 * m && i == lo + k && part == bits[lo..i]
        invariant data == Pack(bits, m) && acc == Num(part)
      {
        BitJoins(bits, lo, i, part);
        part := part + [bits[i]];
        acc := 2 * acc + bits[i];
        k := k + 1;
        if k == 8 {
          PackMore(bits, m, m + 1, lo, i + 1, part, acc);
          data := data + [acc];
          acc, k, part := 0, 0, [];
          m, lo := m + 1, i + 1;
        }
      }
      WholeBytes(|bits|, m, k);
    }
  }

  lemma WholeBytes(n: nat, m: nat, k: nat)
    requires n == 8 * m + k && k < 8 && n % 8 == 0
    ensures m == n / 8
  {
  }

  lemma BitJoins(bits: seq<Bit>, lo: nat, i: nat, part: seq<Bit>)
    requires lo <= i < |bits| && part == bits[lo..i]
    ensures part + [bits[i]] == bits[lo..i + 1] && Num(part + [bits[i]]) == 2 * Num(part) + bits[i]
  {
    NumSnoc(part, bits[i]);
  }

  lemma PackMore(bits: seq<Bit>, m: nat, m': nat, lo: nat, hi: nat, part: seq<Bit>, acc: nat)
    requires m' == m + 1 && lo == 8 * m && hi == 8 * m' && hi <= |bits| && part == bits[lo..hi] && acc == Num(part)
    ensures acc < 256 && Pack(bits, m') == Pack(bits, m) + [acc]
  {
    EightBits(part);
  }

  class BitReader {
    const data: seq<Byte>
    var i: nat
    /** Fields that are known to be there, of which `next` are read. */
    ghost const known: seq<Field>
    ghost var next: nat

    ghost predicate Valid()
      reads this
    {
      i <= 8 * |data| && next <= |known| && ValidFields(known) && FieldBits(known[next..]) <= BitsFrom(data, i)
    }

    constructor (data: seq<Byte>, ghost known: seq<Field>)
      requires ValidFields(known) && FieldBits(known) <= BitsFrom(data, 0)
      ensures Valid() && this.data == data && i == 0 && this.known == known && next == 0
    {
      this.data := data;
      i := 0;
      this.known := known;
      next := 0;
      assert known[0..] == known;
    }

    /** The next n bits as a number, if there are so many; what is known is read. */
    method Get(n: nat) returns (r: Result<nat>)
      requires Valid()
      modifies this
      ensures Valid()
      ensures i >= old(i) && (r.Ok? ==> i == old(i) + n && r.value == Num(BitsFrom(data, old(i))[..n]))
      ensures r.Err? <==> old(i) + n > 8 * |data|
      ensures r.Err? ==> r.code == INTEGRITY_FAIL
      ensures old(next) < |known| && known[old(next)].n == n ==> r == Ok(known[old(next)].v) && next == old(next) + 1
    {
      ghost var fields := known[next..];
      ghost var fits := next < |known| && known[next].n == n;
      if fits {
        TakeField(fields, BitsFrom(data, i));
        assert fields[1..] == known[next + 1..];
      }
      r := Scan(n);
      next := if fits then next + 1 else |known|;
    }

    method Scan(n: nat) returns (r: Result<nat>)
      requires i <= 8 * |data|
      modifies this`i
      ensures old(i) <= i <= 8 * |data|
      ensures r.Ok? ==> i == old(i) + n && r.value == Num(BitsFrom(data, old(i))[..n]) && BitsFrom(data, i) == BitsFrom(data, old(i))[n..]
      ensures r.Err? <==> old(i) + n > 8 * |data|
      ensures r.Err? ==> r.code == INTEGRITY_FAIL
    {
      var v: nat := 0;
      ghost var bits := BitsFrom(data, i);
      for k := 0 to n
        invariant i == old(i) + k <= 8 * |data| && v == Num(bits[..k])
      {
        if i >= 8 * |data| {
          return Err(INTEGRITY_FAIL);
        }
        assert bits[..k + 1] == bits[..k] + [bits[k]] && bits[k] == BitAt(data, i);
        NumSnoc(bits[..k], bits[k]);
        ShrNat(data[i / 8], 7 - i % 8);
        v := 2 * v + Shr(data[i / 8], 7 - i % 8) % 2;
        i := i + 1;
      }
      r := Ok(v);
    }

    /** A flag. */
    method Flag() returns (r: Result<bool>)
      requires Valid()
      modifies this
      ensures Valid() && i >= old(i) && (r.Ok? ==> i == old(i) + 1)
      ensures old(next) < |known| && known[old(next)].n == 1 ==> r == Ok(known[old(next)].v != 0) && next == old(next) + 1
    {
      var v :- Get(1);
      r := Ok(v != 0);
    }

    /** A number with a sign bit before it. */
    method Signed(n: nat) returns (r: Result<int>)
      requires Valid() && n > 0
      modifies this
      ensures Valid() && i >= old(i)
    {
      var v :- Get(n);
      var mag := Low(v, n - 1);
      r := Ok(if Shr(v, n - 1) != 0 then -mag else mag);
    }

    /** All that is known to come is n zero bits. */
    ghost predicate KnowsZeros(n: int)
      reads this
    {
      |known| == next + n && forall k :: next <= k < |known| ==> known[k] == Field(1, 0)
    }

    /** Zeros up to the next byte. */
    method Align() returns (r: Result<bool>)
      requires Valid()
      modifies this
      ensures Valid() && old(i) <= i && (r.Ok? ==> i == Whole(old(i)))
      ensures old(KnowsZeros(Whole(i) - i)) ==> r.Ok?
    {
      ghost var sure := KnowsZeros(Whole(i) - i);
      WholeBounds(i);
      while i % 8 != 0
        invariant Valid() && old(i) <= i <= Whole(old(i)) && (sure ==> KnowsZeros(Whole(old(i)) - i))
        decreases Whole(old(i)) - i
      {
        var bit :- Get(1);
        if bit != 0 {
          return Err(INTEGRITY_FAIL);
        }
      }
      r := Ok(true);
    }

    /** All that comes is a one and zeros up to the next byte, where the data ends. */
    ghost predicate KnowsEnd()
      reads this
    {
      && next < |known| && known[next] == Field(1, 1)
      && |known| == next + Whole(i + 1) - i && (forall k :: next < k < |known| ==> known[k] == Field(1, 0))
      && 8 * |data| == Whole(i + 1)
    }

    /** A one and zeros up to the end, unless there is nothing left. */
    method Trailing() returns (r: Result<bool>)
      requires Valid()
      modifies this
      ensures Valid() && i >= old(i)
      ensures r.Ok? ==> i == 8 * |data|
      ensures old(KnowsEnd()) ==> r.Ok?
    {
      if i >= 8 * |data| {
        return Ok(true);
      }
      var one := Get(1);
      if one.value != 1 {
        return Err(INTEGRITY_FAIL);
      }
      var zeros :- Align();
      if i != 8 * |data| {
        return Err(INTEGRITY_FAIL);
      }
      r := Ok(true);
    }
  }

  lemma TakeField(fs: seq<Field>, bits: seq<Bit>)
    requires fs != [] && ValidFields(fs) && FieldBits(fs) <= bits
    ensures fs[0].n <= |bits| && Num(bits[..fs[0].n]) == fs[0].v
    ensures ValidFields(fs[1..]) && FieldBits(fs[1..]) <= bits[fs[0].n..]
  {
    NumU(fs[0].n, fs[0].v);
    PrefixRest(U(fs[0].n, fs[0].v), FieldBits(fs[1..]), bits);
  }

  lemma PrefixRest(a: seq<Bit>, b: seq<Bit>, s: seq<Bit>)
    requires a + b <= s
    ensures |a| <= |s| && s[..|a|] == a && b <= s[|a|..]
  {
    forall i | 0 <= i < |b|
      ensures b[i] == s[|a|..][i]
    {
      assert (a + b)[|a| + i] == b[i];
    }
  }

  // ---- sizes

  /** Seven bits a byte, low ones first; a high bit says that more follow. */
  function Leb(n: nat): (s: seq<Byte>)
    ensures |s| >= 1
  {
    if n < 128 then [n] else [n % 128 + 128] + Leb(n / 128)
  }

  method WriteLeb(n0: nat) returns (s: seq<Byte>)
    ensures s == Leb(n0)
  {
    s := [];
    var n := n0;
    while true
      invariant s + Leb(n) == Leb(n0)
      decreases n
    {
      var b := n % 128;
      n := n / 128;
      if n == 0 {
        s := s + [b];
        return;
      }
      s := s + [b + 128];
    }
  }

  /** A size of at most `left` more bytes, and where it ends. */
  function ReadLeb(data: seq<Byte>, i: nat, left: nat): Result<(nat, nat)>
    decreases left
  {
    if left == 0 || i >= |data| then Err(INTEGRITY_FAIL)
    else if data[i] < 128 then Ok((data[i], i + 1))
    else
      var rest := ReadLeb(data, i + 1, left - 1);
      if rest.Err? then rest else Ok((128 * rest.value.0 + data[i] % 128, rest.value.1))
  }

  method GetLeb(data: seq<Byte>, i0: nat) returns (r: Result<(nat, nat)>)
    requires i0 <= |data|
    ensures r == ReadLeb(data, i0, 8)
  {
    var size: nat, shift: nat, i: nat := 0, 0, i0;
    for k := 0 to 8
      invariant i == i0 + k <= |data| && shift == 7 * k && size < Pow2(shift)
      invariant ReadLeb(data, i0, 8) == Above(ReadLeb(data, i, 8 - k), shift, size)
    {
      if i >= |data| {
        return Err(INTEGRITY_FAIL);
      }
      var b := data[i];
      LebStep(data, i, 8 - k, shift, size);
      i := i + 1;
      size := Or(size, Shl(b % 128, shift));
      if b < 128 {
        return Ok((size, i));
      }
      shift := shift + 7;
    }
    r := Err(INTEGRITY_FAIL);
  }

  lemma LebStep(data: seq<Byte>, i: nat, left: nat, shift: nat, size: nat)
    requires i < |data| && left > 0 && size < Pow2(shift)
    ensures Shl(data[i] % 128, shift) >= 0 && 0 <= Or(size, Shl(data[i] % 128, shift)) < Pow2(shift + 7)
    ensures Above(ReadLeb(data, i, left), shift, size)
         == if data[i] < 128 then Ok((Or(size, Shl(data[i] % 128, shift)), i + 1))
            else Above(ReadLeb(data, i + 1, left - 1), shift + 7, Or(size, Shl(data[i] % 128, shift)))
  {
    var rest := ReadLeb(data, i + 1, left - 1);
    LebByte(size, shift, data[i], if rest.Ok? then rest.value.0 else 0);
  }

  /** A size read further on, above `size` in the bits below `shift`. */
  function Above(r: Result<(nat, nat)>, shift: nat, size: nat): Result<(int, nat)> {
    if r.Err? then Err(r.code) else Ok((Shl(r.value.0, shift) + size, r.value.1))
  }

  lemma LebByte(size: nat, shift: nat, b: Byte, more: nat)
    requires size < Pow2(shift)
    ensures Shl(b % 128, shift) >= 0
    ensures Or(size, Shl(b % 128, shift)) == Shl(b % 128, shift) + size < Pow2(shift + 7)
    ensures Shl(128 * more + b % 128, shift) + size == Shl(more, shift + 7) + (Shl(b % 128, shift) + size)
    ensures b < 128 ==> Shl(b, shift) + size == Or(size, Shl(b % 128, shift))
  {
    OrSum(b % 128, size, shift);
    ShlStep(b % 128, 128, shift);
    Pow2Values();
    Pow2Shl(7, shift);
    assert Shl(1, 7) == 2 * Shl(1, 6) == 4 * Shl(1, 5) == 8 * Shl(1, 4);
    assert 7 + shift == shift + 7;
    ShlSum(128 * more, b % 128, shift);
    ShlShl(more, 7, shift);
    assert Shl(more, 7) == 2 * Shl(more, 6) == 4 * Shl(more, 5) == 8 * Shl(more, 4);
    assert Shl(more, 4) == 2 * Shl(more, 3) == 4 * Shl(more, 2) == 8 * Shl(more, 1) == 16 * more;
  }

  /** A size in `left` bytes comes back. */
  lemma {:induction false} LebBack(n: nat, head: seq<Byte>, rest: seq<Byte>, left: nat)
    ensures ReadLeb(head + Leb(n) + rest, |head|, left)
         == if left > 0 && n < Pow2(7 * left) then Ok((n, |head| + |Leb(n)|)) else Err(INTEGRITY_FAIL)
    decreases left
  {
    var data := head + Leb(n) + rest;
    Pow2Pos(7 * left);
    if left > 0 {
      SevenMore(left);
      assert data[|head|] == Leb(n)[0];
      if n >= 128 {
        var b: Byte := n % 128 + 128;
        assert data == (head + [b]) + Leb(n / 128) + rest;
        LebBack(n / 128, head + [b], rest, left - 1);
      } else {
        Pow2Pos(7 * (left - 1));
      }
    }
  }

  lemma SevenMore(left: nat)
    requires left > 0
    ensures Pow2(7 * left) == 128 * Pow2(7 * (left - 1))
  {
    var k := 7 * (left - 1);
    assert 7 * left == k + 7;
    assert Shl(1, k + 7) == 2 * Shl(1, k + 6) == 4 * Shl(1, k + 5) == 8 * Shl(1, k + 4);
    assert Shl(1, k + 4) == 2 * Shl(1, k + 3) == 4 * Shl(1, k + 2) == 8 * Shl(1, k + 1) == 16 * Shl(1, k);
  }

  /** Sizes below 2^56 are read back from what was written, and only those. */
  lemma LebRoundTrip(n: nat, rest: seq<Byte>)
    ensures ReadLeb(Leb(n) + rest, 0, 8) == if n < Pow2(56) then Ok((n, |Leb(n)|)) else Err(INTEGRITY_FAIL)
  {
    LebBack(n, [], rest, 8);
    assert [] + Leb(n) + rest == Leb(n) + rest;
  }

  // ---- units

  function Unit(typ: nat, payload: seq<Byte>): seq<Byte>
    requires typ < 16
  {
    [8 * typ + 2] + Leb(|payload|) + payload
  }

  method WriteUnit(typ: nat, payload: seq<Byte>) returns (s: seq<Byte>)
    requires typ < 16
    ensures s == Unit(typ, payload)
  {
    var size := WriteLeb(|payload|);
    s := [8 * typ + 2] + size + payload;
  }

  type Units = seq<(nat, seq<Byte>)>

  function Consed(u: (nat, seq<Byte>), r: Result<Units>): Result<Units> {
    if r.Err? then r else Ok([u] + r.value)
  }

  /** The type and payload of the unit at byte i, and where it ends. */
  function UnitAt(data: seq<Byte>, i: nat): (u: Result<(nat, seq<Byte>, nat)>)
    requires i < |data|
    ensures u.Ok? ==> i < u.value.2 <= |data|
  {
    var h := data[i];
    var at := i + 1 + h / 4 % 2;
    if h >= 128 || at > |data| then Err(INTEGRITY_FAIL)
    else if h / 2 % 2 == 0 then Err(UNSUPPORTED)
    else
      var size := ReadLeb(data, at, 8);
      if size.Err? then Err(size.code)
      else if size.value.1 + size.value.0 > |data| then Err(INTEGRITY_FAIL)
      else
        LebEnd(data, at, 8);
        Ok((h / 8 % 16, data[size.value.1..size.value.1 + size.value.0], size.value.1 + size.value.0))
  }

  /** The units from byte i on. */
  function UnitsFrom(data: seq<Byte>, i: nat): Result<Units>
    requires i <= |data|
    decreases |data| - i
  {
    if i == |data| then Ok([])
    else
      var u := UnitAt(data, i);
      if u.Err? then Err(u.code) else Consed((u.value.0, u.value.1), UnitsFrom(data, u.value.2))
  }

  lemma {:induction false} LebEnd(data: seq<Byte>, i: nat, left: nat)
    requires ReadLeb(data, i, left).Ok?
    ensures i < ReadLeb(data, i, left).value.1 <= |data|
    decreases left
  {
    if data[i] >= 128 {
      LebEnd(data, i + 1, left - 1);
    }
  }

  method ReadUnit(data: seq<Byte>, i0: nat) returns (r: Result<(nat, seq<Byte>, nat)>)
    requires i0 < |data|
    ensures r == UnitAt(data, i0)
  {
    var i := i0;
    var h := data[i];
    i := i + 1;
    if h >= 128 {
      return Err(INTEGRITY_FAIL);
    }
    var typ, ext, has := h / 8 % 16, h / 4 % 2, h / 2 % 2;
    if ext == 1 {
      if i >= |data| {
        return Err(INTEGRITY_FAIL);
      }
      i := i + 1;
    }
    if has == 0 {
      return Err(UNSUPPORTED);
    }
    var size :- GetLeb(data, i);
    LebEnd(data, i, 8);
    if size.1 + size.0 > |data| {
      return Err(INTEGRITY_FAIL);
    }
    r := Ok((typ, data[size.1..size.1 + size.0], size.1 + size.0));
  }

  method ReadUnits(data: seq<Byte>) returns (r: Result<Units>)
    ensures r == UnitsFrom(data, 0)
  {
    var i: nat := 0;
    var out: Units := [];
    JoinedNone(UnitsFrom(data, 0));
    while i < |data|
      invariant i <= |data| && UnitsFrom(data, 0) == Joined(out, UnitsFrom(data, i))
      decreases |data| - i
    {
      var u :- ReadUnit(data, i);
      JoinedMore(out, (u.0, u.1), UnitsFrom(data, u.2));
      i := u.2;
      out := out + [(u.0, u.1)];
    }
    r := Ok(out);
    assert out + [] == out;
  }

  function Joined(out: Units, r: Result<Units>): Result<Units> {
    if r.Err? then r else Ok(out + r.value)
  }

  lemma JoinedNone(r: Result<Units>)
    ensures Joined([], r) == r
  {
    assert r.Ok? ==> [] + r.value == r.value;
  }

  lemma JoinedMore(out: Units, u: (nat, seq<Byte>), r: Result<Units>)
    ensures Joined(out, Consed(u, r)) == Joined(out + [u], r)
  {
    if r.Ok? {
      assert out + ([u] + r.value) == out + [u] + r.value;
    }
  }

  /** A written unit is read, and then what follows it. */
  lemma UnitBack(data: seq<Byte>, head: seq<Byte>, typ: nat, payload: seq<Byte>, rest: seq<Byte>, end: nat)
    requires typ < 16 && |payload| < Pow2(56) && data == head + Unit(typ, payload) + rest && end == |head + Unit(typ, payload)|
    ensures UnitsFrom(data, |head|) == Consed((typ, payload), UnitsFrom(data, end))
  {
    var h: Byte := 8 * typ + 2;
    var at, from := |head| + 1, |head| + 1 + |Leb(|payload|)|;
    UnitParts(data, head, h, Leb(|payload|), payload, rest);
    HeaderByte(typ, h);
    LebBack(|payload|, head + [h], payload + rest, 8);
    UnitIs(data, |head|, at, from, typ, payload);
  }

  lemma HeaderByte(typ: nat, h: Byte)
    requires typ < 16 && h == 8 * typ + 2
    ensures h < 128 && h / 8 % 16 == typ && h / 4 % 2 == 0 && h / 2 % 2 == 1
  {
    assert h / 8 == typ;
  }

  lemma UnitIs(data: seq<Byte>, i: nat, at: nat, from: nat, typ: nat, payload: seq<Byte>)
    requires i < |data| && at == i + 1 && from + |payload| <= |data| && data[from..from + |payload|] == payload
    requires var h := data[i]; h < 128 && h / 8 % 16 == typ && h / 4 % 2 == 0 && h / 2 % 2 == 1
    requires ReadLeb(data, at, 8) == Ok((|payload|, from))
    ensures UnitAt(data, i) == Ok((typ, payload, from + |payload|))
  {
  }

  lemma UnitParts(data: seq<Byte>, head: seq<Byte>, h: Byte, size: seq<Byte>, payload: seq<Byte>, rest: seq<Byte>)
    requires data == head + ([h] + size + payload) + rest
    ensures data == (head + [h]) + size + (payload + rest) && data[|head|] == h
    ensures var at := |head| + 1 + |size|; data[at..at + |payload|] == payload
  {
  }
}
