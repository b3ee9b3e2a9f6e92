// The Opus range encoder as it runs: a 32-bit window, a held-back byte with a
// run of 255s behind it, and raw bits growing from the end of the packet.

module OpusEncoder {
  import opened Bits
  import opened OpusModel

  function Fill(b: Byte, n: nat): (s: seq<Byte>)
    ensures |s| == n
  {
    seq(n, _ => b)
  }

  /** A carry turns the held byte and the 255s behind it over. */
  lemma {:induction false} CarryValue(x: seq<Byte>, rem: Byte, n: nat)
    requires rem < 255
    ensures Be(x + [rem + 1] + Fill(0, n)) == Be(x + [rem] + Fill(255, n)) + 1
  {
    if n == 0 {
      assert x + [rem + 1] + Fill(0, 0) == x + [rem + 1];
      assert x + [rem] + Fill(255, 0) == x + [rem];
      BeSnoc(x, rem);
      BeSnoc(x, rem + 1);
    } else {
      CarryValue(x, rem, n - 1);
      assert x + [rem + 1] + Fill(0, n) == (x + [rem + 1] + Fill(0, n - 1)) + [0];
      assert x + [rem] + Fill(255, n) == (x + [rem] + Fill(255, n - 1)) + [255];
      BeSnoc(x + [rem + 1] + Fill(0, n - 1), 0);
      BeSnoc(x + [rem] + Fill(255, n - 1), 255);
    }
  }

  class Enc {
    const buf: array<Byte>
    var endOffs: nat
    var endWindow: nat
    var nendBits: nat
    var nbitsTotal: nat
    var offs: nat
    var rng: nat
    var rem: int
    var val: nat
    var ext: nat
    var error: int
    ghost var coder: Coder

    /** The bytes at the front, with those a carry may still change. */
    ghost function Pending(): seq<Byte>
      requires offs <= buf.Length && rem < 256
      reads this, buf
    {
      buf[..offs] + (if rem >= 0 then [rem] else []) + Fill(255, ext)
    }

    /** The whole bytes of raw bits at the end. */
    ghost function Tail(): seq<Byte>
      requires endOffs <= buf.Length
      reads this`endOffs, buf
    {
      buf[buf.Length - endOffs..]
    }

    /** The front of the packet, with w in the window, while no write has failed. */
    ghost predicate Front(w: nat, v: nat, t: nat)
      reads this, buf
    {
      && offs <= buf.Length && -1 <= rem < 256
      && v == Be(Pending()) * TOP + w
      && t == 31 + 8 * |Pending()|
    }

    /** The back of the packet, while no write has failed. */
    ghost predicate Back(raw: nat, m: nat, window: nat, used: nat)
      reads this, buf
    {
      && endOffs <= buf.Length
      && m == 8 * endOffs + used
      && raw == Shl(window, 8 * endOffs) + Be(Tail())
    }

    /** A carry has a byte to land in. */
    predicate Roomy(top: nat)
      reads this
    {
      && -1 <= rem < 256
      && top < WORD
      && (rem == -1 || rem == 255 ==> top <= TOP)
    }

    /** All but the renormalised range, for a window of raw bits not yet stored. */
    ghost predicate CoreWith(window: nat, used: nat)
      reads this, buf
    {
      && offs + endOffs <= buf.Length
      && 0 < rng <= TOP && rng == coder.span.rng
      && Roomy(val + rng)
      && nbitsTotal == coder.span.t + 2 + coder.m
      && window < Pow2(used) && used <= 32
      && coder.raw < Pow2(coder.m)
      && (error == 0 ==> Front(val, coder.span.v, coder.span.t) && Back(coder.raw, coder.m, window, used))
      && (error != 0 ==> Full())
    }

    /** What has been said does not leave a bit of the packet free. */
    ghost predicate Full()
      reads this
    {
      coder.span.t - 31 + coder.m >= 8 * buf.Length + 8
    }

    ghost predicate Core()
      reads this, buf
    {
      CoreWith(endWindow, nendBits)
    }

    ghost predicate Valid()
      reads this, buf
    {
      Core() && BOT < rng
    }

    constructor (size: nat)
      ensures Valid() && coder == START && error == 0
      ensures fresh(buf) && buf.Length == size
    {
      Pow2Values();
      buf := new Byte[size];
      endOffs, endWindow, nendBits := 0, 0, 0;
      nbitsTotal := 33;
      offs, rng, rem, val, ext, error := 0, TOP, -1, 0, 0, 0;
      coder := START;
    }

    method Write(value: nat)
      requires offs + endOffs <= buf.Length
      modifies this`offs, this`error, buf
      ensures offs + endOffs <= buf.Length
      ensures old(offs) + endOffs >= buf.Length ==> error == -1 && offs == old(offs) && buf[..] == old(buf[..])
      ensures old(offs) + endOffs < buf.Length ==> error == old(error) && offs == old(offs) + 1
      ensures error == 0 ==> old(error) == 0 && buf[..offs] == old(buf[..offs]) + [value % 256]
      ensures Tail() == old(Tail())
    {
      if offs + endOffs >= buf.Length {
        error := -1;
        return;
      }
      buf[offs] := value % 256;
      offs := offs + 1;
    }

    method WriteEnd(value: nat)
      requires offs + endOffs <= buf.Length
      modifies this`endOffs, this`error, buf
      ensures offs + endOffs <= buf.Length
      ensures buf[..offs] == old(buf[..offs])
      ensures error == 0 ==> old(error) == 0 && endOffs == old(endOffs) + 1
      ensures offs + old(endOffs) < buf.Length ==> error == old(error)
      ensures error == 0 ==> Tail() == [value % 256] + old(Tail())
    {
      if offs + endOffs >= buf.Length {
        error := -1;
        return;
      }
      endOffs := endOffs + 1;
      buf[buf.Length - endOffs] := value % 256;
    }

    /** Writes the held run, all of it 255, or all of it turned over. */
    method WriteRun(sym: Byte)
      requires offs + endOffs <= buf.Length
      modifies this`offs, this`ext, this`error, buf
      ensures offs + endOffs <= buf.Length && ext == 0
      ensures Tail() == old(Tail())
      ensures error == 0 ==> old(error) == 0 && buf[..offs] == old(buf[..offs]) + Fill(sym, old(ext))
      ensures old(offs) + old(ext) + endOffs <= buf.Length ==> error == old(error)
    {
      ghost var head := buf[..offs];
      while ext > 0
        invariant offs + endOffs <= buf.Length && ext <= old(ext)
        invariant error == 0 ==> old(error) == 0 && buf[..offs] == head + Fill(sym, old(ext) - ext)
        invariant old(offs) + old(ext) + endOffs <= buf.Length ==> error == old(error) && offs + ext == old(offs) + old(ext)
        invariant Tail() == old(Tail())
      {
        Write(sym);
        FillMore(head, sym, old(ext) - ext);
        ext := ext - 1;
      }
    }

    /** Writes what was held back, now that the carry into it is known. */
    method WriteHeld(carry: nat)
      requires offs + endOffs <= buf.Length && -1 <= rem < 256 && carry <= 1
      requires carry == 1 ==> 0 <= rem < 255
      modifies this`offs, this`ext, this`error, buf
      ensures offs + endOffs <= buf.Length && ext == 0
      ensures Tail() == old(Tail())
      ensures error == 0 ==> old(error) == 0
      ensures error == 0 ==> |buf[..offs]| == old(|Pending()|) && Be(buf[..offs]) == old(Be(Pending())) + carry
      ensures old(|Pending()|) + endOffs <= buf.Length ==> error == old(error)
    {
      ghost var head := buf[..offs];
      HeldValue(head, rem, ext, carry);
      if rem >= 0 {
        Write(rem + carry);
      }
      assert error == 0 ==> buf[..offs] == head + (if rem >= 0 then [rem + carry] else []);
      WriteRun((255 + carry) % 256);
    }

    /** Appends the nine-bit symbol c, its top bit being a carry. */
    method CarryOut(c: nat)
      requires offs + endOffs <= buf.Length && -1 <= rem < 256 && c < 512
      requires c >= 256 ==> 0 <= rem < 255
      modifies this`offs, this`rem, this`ext, this`error, buf
      ensures offs + endOffs <= buf.Length && -1 <= rem < 256
      ensures Tail() == old(Tail())
      ensures rem == if c == 255 then old(rem) else c % 256
      ensures error == 0 ==> old(error) == 0
      ensures error == 0 ==> |Pending()| == old(|Pending()|) + 1 && Be(Pending()) == 256 * old(Be(Pending())) + c
      ensures c != 255 ==> ext == 0
      ensures old(|Pending()|) + endOffs <= buf.Length ==> error == old(error)
    {
      if c != 255 {
        WriteHeld(c / 256);
        rem := c % 256;
        assert Fill(255, 0) == [];
        assert Pending() == buf[..offs] + [rem];
        BeSnoc(buf[..offs], rem);
      } else {
        ghost var was := Pending();
        FillMore(buf[..offs] + (if rem >= 0 then [rem] else []), 255, ext);
        ext := ext + 1;
        BeSnoc(was, 255);
      }
    }

    method Norm()
      requires Core()
      modifies this, buf
      ensures Valid()
      ensures coder == old(coder).(span := Settle(old(coder.span)))
      ensures endWindow == old(endWindow) && nendBits == old(nendBits)
      ensures error == 0 ==> old(error) == 0
    {
      while rng <= BOT
        invariant Core()
        invariant Settle(coder.span) == Settle(old(coder.span))
        invariant coder == old(coder).(span := coder.span)
        invariant endWindow == old(endWindow) && nendBits == old(nendBits)
        invariant error == 0 ==> old(error) == 0
        decreases TOP - rng
      {
        Shift();
      }
    }

    /** Moves the eight high bits of a window, and its carry, into the front. */
    method ShiftOut(w: nat, ghost v: nat, ghost t: nat) returns (w': nat)
      requires offs + endOffs <= buf.Length && -1 <= rem < 256
      requires w < WORD && (w >= TOP ==> 0 <= rem < 255)
      requires error == 0 ==> Front(w, v, t)
      modifies this`offs, this`rem, this`ext, this`error, buf
      ensures offs + endOffs <= buf.Length && -1 <= rem < 256 && w' == NextWindow(w)
      ensures rem == NextRem(w, old(rem))
      ensures Tail() == old(Tail())
      ensures error == 0 ==> old(error) == 0 && Front(w', 256 * v, t + 8)
      ensures error != 0 ==> old(error) != 0 || t - 31 + 8 * endOffs >= 8 * buf.Length + 8
    {
      ghost var p := Pending();
      if error == 0 {
        ValueShift(v, Be(p), w);
      }
      CarryOut(w / BOT);
      w' := (w * 256) % TOP;
    }

    method Shift()
      requires Core() && rng <= BOT
      modifies this, buf
      ensures Core() && rng == 256 * old(rng)
      ensures coder == old(coder).(span := Finer(old(coder.span)))
      ensures endWindow == old(endWindow) && nendBits == old(nendBits)
      ensures error == 0 ==> old(error) == 0
    {
      WindowShift(val, rng, rem);
      val := ShiftOut(val, coder.span.v, coder.span.t);
      Widen();
    }

    /** The window has moved: the range and the count follow. */
    method Widen()
      requires offs + endOffs <= buf.Length && 0 < rng <= BOT && rng == coder.span.rng && Roomy(val + 256 * rng)
      requires nbitsTotal == coder.span.t + 2 + coder.m
      requires endWindow < Pow2(nendBits) && nendBits <= 32 && coder.raw < Pow2(coder.m)
      requires error == 0 ==> Front(val, 256 * coder.span.v, coder.span.t + 8)
      requires error == 0 ==> Back(coder.raw, coder.m, endWindow, nendBits)
      requires error != 0 ==> Full()
      modifies this`rng, this`nbitsTotal, this`coder
      ensures Core() && rng == 256 * old(rng)
      ensures coder == old(coder).(span := Finer(old(coder.span)))
    {
      rng := (rng * 256) % WORD;
      nbitsTotal := nbitsTotal + 8;
      coder := coder.(span := Finer(coder.span));
    }

    /** Makes [newVal, newVal + newRng) the window's interval, then renormalises. */
    method Narrow(newVal: nat, newRng: nat, ghost hi: nat, ghost lo: nat)
      requires Valid() && lo < hi <= rng && newVal == val + (rng - hi) && newRng == hi - lo
      modifies this, buf
      ensures Valid()
      ensures coder == old(coder).(span := Cut(old(coder.span), hi, lo))
      ensures endWindow == old(endWindow) && nendBits == old(nendBits)
      ensures error == 0 ==> old(error) == 0
    {
      val := newVal;
      rng := newRng;
      coder := coder.(span := Part(coder.span, hi, lo));
      Norm();
    }

    method Encode(fl: nat, fh: nat, ft: nat)
      requires Valid() && fl < fh <= ft <= BOT
      modifies this, buf
      ensures Valid()
      ensures coder == FreqTaken(old(coder), ft, fl, fh)
      ensures error == 0 ==> old(error) == 0
    {
      var r := if ft != 0 then rng / ft else 0;
      DivRatio(rng, ft);
      ghost var hi, lo := PartBounds(val, rng, r, ft, fl, fh);
      if fl > 0 {
        Narrow((val + (rng - r * (ft - fl))) % WORD, (r * (fh - fl)) % WORD, hi, lo);
      } else {
        Narrow(val, (rng - r * (ft - fh)) % WORD, hi, lo);
      }
    }

    method EncodeBin(fl: nat, fh: nat, ftb: nat)
      requires Valid() && ftb <= 23 && fl < fh <= Pow2(ftb)
      modifies this, buf
      ensures Valid()
      ensures coder == ShiftTaken(old(coder), ftb, fl, fh)
      ensures error == 0 ==> old(error) == 0
    {
      var r := Shr(rng, ftb);
      ShrRatio(rng, ftb);
      ghost var hi, lo := PartBounds(val, rng, r, Pow2(ftb), fl, fh);
      if fl > 0 {
        Narrow((val + (rng - r * (Pow2(ftb) - fl))) % WORD, (r * (fh - fl)) % WORD, hi, lo);
      } else {
        Narrow(val, (rng - r * (Pow2(ftb) - fh)) % WORD, hi, lo);
      }
    }

    method BitLogp(bit: nat, logp: nat)
      requires Valid() && 1 <= logp <= 23 && bit <= 1
      modifies this, buf
      ensures Valid()
      ensures coder == BitStep(old(coder), logp, bit)
      ensures error == 0 ==> old(error) == 0
    {
      BitRatio(rng, logp);
      var s := Shr(rng, logp);
      var r := (rng - s) % WORD;
      if bit != 0 {
        Narrow((val + r) % WORD, s, s, 0);
      } else {
        Narrow(val, r, rng, s);
      }
    }

    method Icdf(s: nat, table: seq<nat>, ftb: nat)
      requires Valid() && ftb <= 23 && ValidTable(table, Pow2(ftb)) && Coded(table, s)
      modifies this, buf
      ensures Valid()
      ensures coder == ShiftStep(old(coder), ftb, table, s)
      ensures error == 0 ==> old(error) == 0
    {
      var r := Shr(rng, ftb);
      ShrRatio(rng, ftb);
      BelowOrder(table, Pow2(ftb), s, s + 1);
      ghost var hi, lo := PartBounds(val, rng, r, Pow2(ftb), Below(table, Pow2(ftb), s), Below(table, Pow2(ftb), s + 1));
      if s > 0 {
        Narrow((val + (rng - r * table[s - 1])) % WORD, (r * (table[s - 1] - table[s])) % WORD, hi, lo);
      } else {
        Narrow(val, (rng - r * table[s]) % WORD, hi, lo);
      }
    }

    ghost predicate Backed(raw: nat, m: nat, window: nat, used: nat)
      reads this, buf
    {
      && offs + endOffs <= buf.Length && window < Pow2(used)
      && (error == 0 ==> Back(raw, m, window, used))
    }

    /** Writes the whole bytes of a window of raw bits. */
    method FlushEnd(window0: nat, used0: nat, ghost raw: nat, ghost m: nat) returns (window: nat, used: nat)
      requires Backed(raw, m, window0, used0)
      modifies this`endOffs, this`error, buf
      ensures Backed(raw, m, window, used) && used < 8 && used <= used0
      ensures buf[..offs] == old(buf[..offs])
      ensures error == 0 ==> old(error) == 0
      ensures error != 0 ==> old(error) != 0 || 8 * offs + m >= 8 * buf.Length + 8
    {
      window, used := window0, used0;
      while used >= 8
        invariant Backed(raw, m, window, used) && used <= used0
        invariant buf[..offs] == old(buf[..offs])
        invariant error == 0 ==> old(error) == 0
        invariant error != 0 ==> old(error) != 0 || 8 * offs + m >= 8 * buf.Length + 8
      {
        FlushByte(window, used, raw, m);
        window := window / 256;
        used := used - 8;
      }
    }

    method FlushByte(window: nat, used: nat, ghost raw: nat, ghost m: nat)
      requires Backed(raw, m, window, used) && used >= 8
      modifies this`endOffs, this`error, buf
      ensures Backed(raw, m, window / 256, used - 8)
      ensures buf[..offs] == old(buf[..offs])
      ensures error == 0 ==> old(error) == 0
      ensures error != 0 ==> old(error) != 0 || 8 * offs + m >= 8 * buf.Length + 8
    {
      EndByte(window, endOffs, Tail());
      ShlByte(1, used - 8);
      WriteEnd(window % 256);
    }

    method Bits(fl: nat, nbits: int)
      requires Valid() && nbits <= 25 && (nbits > 0 ==> fl < Pow2(nbits))
      modifies this, buf
      ensures Valid()
      ensures coder == if nbits <= 0 then old(coder) else RawStep(old(coder), nbits, fl)
      ensures error == 0 ==> old(error) == 0
    {
      if nbits <= 0 {
        return;
      }
      var window, used := endWindow, nendBits;
      if used + nbits > 32 {
        window, used := FlushEnd(window, used, coder.raw, coder.m);
      }
      Append(window, used, fl, nbits);
    }

    /** Puts nbits more above a window, and keeps it. */
    method Append(window: nat, used: nat, fl: nat, nbits: nat)
      requires CoreWith(window, used) && BOT < rng && used + nbits <= 32 && fl < Pow2(nbits)
      modifies this`endWindow, this`nendBits, this`nbitsTotal, this`coder
      ensures Valid()
      ensures coder == RawStep(old(coder), nbits, fl)
    {
      WindowGrows(window, used, fl, nbits);
      if error == 0 {
        RawGrows(coder, window, used, endOffs, Be(Tail()), fl);
      }
      RawStepBound(coder, nbits, fl);
      endWindow := Or(window, Shl(fl % WORD, used)) % WORD;
      nendBits := used + nbits;
      nbitsTotal := nbitsTotal + nbits;
      coder := RawStep(coder, nbits, fl);
    }

    method Uint(fl: nat, ft: nat)
      requires Valid() && 2 <= ft <= WORD && fl < ft
      modifies this, buf
      ensures Valid()
      ensures coder == UintStep(old(coder), ft, fl)
      ensures error == 0 ==> old(error) == 0
    {
      var top := ft - 1;
      var ftb := BitLen(top);
      if ftb > 8 {
        ftb := ftb - 8;
        UintTwoBounds(ft, fl, ftb);
        var fh, fs, low := Shr(fl, ftb), Shr(top, ftb) + 1, Low(fl, ftb);
        UintTwo(coder, ft, fl, ftb, fh, fs, low);
        EncodeTwo(fh, fs, low, ftb);
      } else {
        var fs := top + 1;
        UintOne(coder, ft, fl, fs);
        EncodeUnit(fl, fs);
      }
    }

    /** One of fs equally likely symbols, and raw bits. */
    method EncodeTwo(fh: nat, fs: nat, low: nat, ftb: nat)
      requires Valid() && fh < fs <= BOT && 0 < ftb <= 25 && low < Pow2(ftb)
      modifies this, buf
      ensures Valid()
      ensures coder == RawStep(FreqStep(old(coder), fs, Units(fs), fh), ftb, low)
      ensures error == 0 ==> old(error) == 0
    {
      EncodeUnit(fh, fs);
      Bits(low, ftb);
    }

    /** One of fs equally likely symbols. */
    method EncodeUnit(s: nat, fs: nat)
      requires Valid() && s < fs <= BOT
      modifies this, buf
      ensures Valid()
      ensures coder == FreqStep(old(coder), fs, Units(fs), s)
      ensures error == 0 ==> old(error) == 0
    {
      UnitBounds(fs, s);
      Encode(s, s + 1, fs);
    }

    function Tell(): int
      reads this
    {
      OpusModel.Tell(nbitsTotal, rng)
    }

    function TellFrac(): int
      requires BOT < rng <= TOP
      reads this
    {
      OpusModel.TellFrac(nbitsTotal, rng)
    }

    /** The end of the range code: few bits, all of whose continuations lie in
        the interval. */
    method Finish() returns (l: nat, end: nat, ghost g: nat)
      requires Valid()
      ensures l <= 9 && end == Shl(g, 31 - l) && val <= end && end + Pow2(31 - l) <= val + rng
      ensures l == 0 ==> end == 0
      ensures l <= 33 - BitLen(rng)
    {
      FinishBounds(val, rng);
      l := 32 - BitLen(rng);
      var msk := Shr(TOP - 1, l);
      Rounds(val, rng, 31 - l);
      end := Clear((val + msk) % WORD, 31 - l);
      if Or(end, msk) >= val + rng {
        l := l + 1;
        msk := msk / 2;
        end := Clear((val + msk) % WORD, 31 - l);
      }
      g := Shr(end, 31 - l);
      if l == 0 {
        NoMultiple(g);
      }
    }

    /** Writes the l bits of the end, as whole bytes; -l bits of the last one are
        spare. Nothing is held back afterwards. */
    method FlushFront(l0: nat, end0: nat, ghost g: nat, ghost v: nat, ghost t: nat) returns (l: int)
      requires offs + endOffs <= buf.Length && -1 <= rem < 256
      requires l0 <= 9 && end0 < WORD
      requires end0 >= TOP ==> 0 <= rem < 255 && l0 > 0
      requires error == 0 ==> Front(end0, v, t) && v == Shl(g, 31 - l0)
      modifies this`offs, this`rem, this`ext, this`error, buf
      ensures offs + endOffs <= buf.Length && -8 < l <= 0
      ensures Tail() == old(Tail())
      ensures error == 0 ==> old(error) == 0 && 8 * offs + l == t - 31 + l0
      ensures error == 0 ==> Be(buf[..offs]) == Shl(g, -l)
      ensures error != 0 ==> old(error) != 0 || t - 31 + l0 + 8 * endOffs > 8 * buf.Length
    {
      l := l0;
      var end: nat := end0;
      ghost var w, k := v, t;
      while l > 0
        invariant offs + endOffs <= buf.Length && -1 <= rem < 256 && -8 < l <= l0 <= 9
        invariant end < WORD && (end >= TOP ==> 0 <= rem < 255 && l > 0)
        invariant Tail() == old(Tail())
        invariant k + l == t + l0
        invariant error == 0 ==> old(error) == 0 && Front(end, w, k) && w == Shl(g, 31 - l)
        invariant error != 0 ==> old(error) != 0 || t - 31 + l0 + 8 * endOffs > 8 * buf.Length
      {
        ShlByte(g, 31 - l);
        end := ShiftOut(end, w, k);
        w, k := 256 * w, k + 8;
        l := l - 8;
      }
      if error == 0 {
        FrontIsWhole(g, -l, Be(Pending()), end);
      }
      Drain();
    }

    /** Writes all that is held back: no carry comes any more. */
    method Drain()
      requires offs + endOffs <= buf.Length && -1 <= rem < 256
      modifies this`offs, this`rem, this`ext, this`error, buf
      ensures offs + endOffs <= buf.Length
      ensures Tail() == old(Tail())
      ensures error == 0 ==> old(error) == 0 && offs == old(|Pending()|) && Be(buf[..offs]) == old(Be(Pending()))
      ensures old(|Pending()|) + endOffs <= buf.Length ==> error == old(error)
    {
      if rem >= 0 || ext > 0 {
        CarryOut(0);
        assert Pending() == buf[..offs] + [0];
        BeSnoc(buf[..offs], 0);
      } else {
        assert Pending() == buf[..offs];
      }
    }

    /** Clears the bytes between the two ends. */
    method Pad()
      requires offs + endOffs <= buf.Length
      modifies buf
      ensures buf[..offs] == old(buf[..offs]) && Tail() == old(Tail())
      ensures buf[offs..buf.Length - endOffs] == Fill(0, buf.Length - endOffs - offs)
    {
      for i := offs to buf.Length - endOffs
        invariant buf[..offs] == old(buf[..offs]) && Tail() == old(Tail())
        invariant forall j :: offs <= j < i ==> buf[j] == 0
      {
        buf[i] := 0;
      }
    }

    /** Puts the last raw bits into the byte below the others, which the range
        code may already use but for its spare bits. */
    method Share(window0: nat, used: nat, spare: nat, ghost g: nat, ghost raw: nat, ghost m: nat)
      requires offs + endOffs <= buf.Length && error == 0 && spare < 8 && used < 8 && window0 < Pow2(used)
      requires Back(raw, m, window0, used) && Be(buf[..offs]) == Shl(g, spare)
      requires buf[offs..buf.Length - endOffs] == Fill(0, buf.Length - endOffs - offs)
      requires 8 * offs >= spare
      modifies this`error, buf
      ensures error == 0 ==> RawIs(buf[..], raw, m) && HeadIs(buf[..], offs, g, spare)
      ensures error != 0 ==> 8 * offs - spare + m > 8 * buf.Length
    {
      var window := window0;
      if used > 0 {
        if endOffs >= buf.Length {
          error := -1;
        } else {
          if offs + endOffs >= buf.Length && spare < used {
            window := Low(window, spare);
            error := -1;
          }
          var last := buf.Length - endOffs - 1;
          WindowByte(buf[last], window0, used, spare);
          ghost var was := buf[..];
          buf[last] := Or(buf[last], window % 256);
          if error == 0 {
            ShareFits(was, buf[..], offs, endOffs, g, spare, window, used, raw, m);
          }
        }
      } else {
        NoShare(buf[..], offs, endOffs, g, spare, window, raw, m);
      }
    }

    /** Writes the raw bits that are left, and clears what lies between the ends. */
    method FlushBack(spare: nat, ghost g: nat, ghost raw: nat, ghost m: nat)
      requires spare < 8 && Backed(raw, m, endWindow, nendBits)
      requires error == 0 ==> Be(buf[..offs]) == Shl(g, spare) && 8 * offs >= spare
      modifies this`endOffs, this`error, buf
      ensures error != 0 ==> old(error) != 0 || 8 * offs - spare + m > 8 * buf.Length
      ensures error == 0 ==> old(error) == 0 && RawIs(buf[..], raw, m) && HeadIs(buf[..], offs, g, spare)
    {
      var window, used := FlushEnd(endWindow, nendBits, raw, m);
      if error == 0 {
        Pad();
        Share(window, used, spare, g, raw, m);
      }
    }

    /** Flushes both ends. Without an error, the packet meets all that was coded; and
        there is none if no more was spent than the packet has. */
    method Done() returns (data: seq<Byte>)
      requires Valid()
      modifies this, buf
      ensures data == buf[..] && |data| == buf.Length
      ensures error == 0 ==> old(error) == 0 && Fits(data, old(coder))
      ensures old(Tell()) <= 8 * buf.Length ==> error == 0
    {
      ghost var c := coder;
      ghost var l0, g;
      var spare;
      spare, l0, g := FlushRange();
      FlushBack(spare, g, c.raw, c.m);
      data := buf[..];
      if error == 0 {
        HeadHolds(data, c.span, offs, g, spare, l0);
      }
    }

    /** Flushes the range code: l0 more bits, the last byte having spare ones. */
    method FlushRange() returns (spare: nat, ghost l0: nat, ghost g: nat)
      requires Valid()
      modifies this`offs, this`rem, this`ext, this`error, buf
      ensures offs + endOffs <= buf.Length && spare < 8 && l0 <= 9 && l0 <= 33 - BitLen(rng)
      ensures Tail() == old(Tail())
      ensures error == 0 ==> old(error) == 0 && 8 * offs - spare == coder.span.t - 31 + l0 && Be(buf[..offs]) == Shl(g, spare)
      ensures error == 0 ==> coder.span.v <= Shl(g, 31 - l0) && Shl(g, 31 - l0) + Pow2(31 - l0) <= coder.span.v + coder.span.rng
      ensures error != 0 ==> old(error) != 0 || coder.span.t - 31 + l0 + 8 * endOffs > 8 * buf.Length
    {
      ghost var head := Be(Pending());
      var l, end, tip := Finish();
      Pow2Pos(31 - l);
      g := EndValue(head, tip, l, end);
      l0 := l;
      var left := FlushFront(l, end, g, head * TOP + end, coder.span.t);
      spare := -left;
    }
  }

  lemma UintTwoBounds(ft: nat, x: nat, b: nat)
    requires 2 <= ft <= WORD && x < ft && b > 0 && b == BitLen(ft - 1) - 8
    ensures 0 <= Shr(x, b) < Shr(ft - 1, b) + 1 <= 256 && 0 <= Low(x, b) < Pow2(b) && b <= 24
  {
    SpillBounds(ft, x);
  }

  lemma UintTwo(c: Coder, ft: nat, x: nat, b: nat, fh: nat, fs: nat, low: nat)
    requires Ok(c) && 2 <= ft <= WORD && x < ft && b > 0 && b == BitLen(ft - 1) - 8
    requires fh == Shr(x, b) && fs == Shr(ft - 1, b) + 1 && low == Low(x, b) && fh < fs <= 256
    ensures UintStep(c, ft, x) == RawStep(FreqStep(c, fs, Units(fs), fh), b, low)
  {
  }

  lemma UintOne(c: Coder, ft: nat, x: nat, fs: nat)
    requires Ok(c) && 2 <= ft <= WORD && x < ft && BitLen(ft - 1) <= 8 && fs == ft
    ensures fs <= BOT && UintStep(c, ft, x) == FreqStep(c, fs, Units(fs), x)
  {
    SpillBounds(ft, x);
    assert Shr(x, 0) == x && Shr(ft - 1, 0) == ft - 1 && Low(x, 0) == 0;
    RawNone(FreqStep(c, ft, Units(ft), x));
  }

  /** What rounding val up to a multiple of 2^k gives, and of half as much. */
  lemma Rounds(val: nat, rng: nat, k: nat)
    requires k >= 1 && Pow2(k) <= rng && val + rng < WORD
    ensures 0 < Pow2(k - 1) && (Pow2(k) - 1) / 2 == Pow2(k - 1) - 1
    ensures RoundsTo(val, k, Clear((val + Pow2(k) - 1) % WORD, k))
    ensures RoundsTo(val, k - 1, Clear((val + Pow2(k - 1) - 1) % WORD, k - 1))
    ensures Clear((val + Pow2(k - 1) - 1) % WORD, k - 1) + Pow2(k - 1) <= val + rng
  {
    Pow2Pos(k - 1);
    RoundUp(val, k);
    RoundUp(val, k - 1);
  }

  ghost predicate RoundsTo(val: nat, k: nat, end: int) {
    && val <= end < val + Pow2(k) && Shr(end, k) >= 0 && end == Shl(Shr(end, k), k)
    && Pow2(k) > 0 && Or(end, Pow2(k) - 1) == end + Pow2(k) - 1
  }

  lemma RoundUp(val: nat, k: nat)
    requires val + Pow2(k) - 1 < WORD
    ensures RoundsTo(val, k, Clear((val + Pow2(k) - 1) % WORD, k))
  {
    Pow2Pos(k);
    ClearUp(val, k);
    ClearOr(val + Pow2(k) - 1, k);
    ClearTwice(val + Pow2(k) - 1, k);
    ShrNat(Clear(val + Pow2(k) - 1, k), k);
  }

  /** The arithmetic of a part stays within the word. */
  lemma PartBounds(val: nat, rng: nat, r: nat, ft: nat, fl: nat, fh: nat) returns (hi: nat, lo: nat)
    requires 0 < rng <= TOP && val + rng < WORD && r > 0 && Times(r, ft) <= rng && fl < fh <= ft
    ensures hi == Bound(rng, r, ft, fl) && lo == Bound(rng, r, ft, fh) && lo < hi <= rng
    ensures lo == r * (ft - fh) && (rng - r * (ft - fh)) % WORD == rng - lo
    ensures fl > 0 ==> hi == r * (ft - fl) && (r * (fh - fl)) % WORD == hi - lo
    ensures fl > 0 ==> (val + (rng - r * (ft - fl))) % WORD == val + (rng - hi)
  {
    hi, lo := Bound(rng, r, ft, fl), Bound(rng, r, ft, fh);
    BoundOrder(rng, r, ft, fl, fh);
    TimesSplit(r, ft - fh, ft - fl);
    assert ft - fl - (ft - fh) == fh - fl;
  }

  function NextWindow(w: nat): nat {
    (w * 256) % TOP
  }

  function NextRem(w: nat, rem: int): int {
    if w / BOT == 255 then rem else w / BOT % 256
  }

  /** Eight bits leave the window; what stays is again below the top, and has no
      carry left to give when the byte that left cannot take one. */
  lemma WindowShift(val: nat, rng: nat, rem: int)
    requires 0 < rng <= BOT && val + rng < WORD && -1 <= rem < 256
    requires rem == -1 || rem == 255 ==> val + rng <= TOP
    ensures -1 <= NextRem(val, rem) < 256
    ensures NextWindow(val) + 256 * rng < WORD
    ensures NextRem(val, rem) == -1 || NextRem(val, rem) == 255 ==> NextWindow(val) + 256 * rng <= TOP
  {
    WindowParts(val);
  }

  lemma WindowParts(val: nat)
    ensures (val * 256) % TOP == 256 * (val - val / BOT * BOT) < TOP
  {
    var c := val / BOT;
    var r := val - c * BOT;
    assert 0 <= r < BOT;
    assert val * 256 == c * TOP + 256 * r;
    ModUnique(c, 256 * r);
  }

  lemma ModUnique(c: nat, r: nat)
    requires r < TOP
    ensures (c * TOP + r) % TOP == r
  {
  }

  lemma ValueShift(v: nat, head: nat, val: nat)
    requires v == head * TOP + val
    ensures 256 * v == (256 * head + val / BOT) * TOP + (val * 256) % TOP
  {
    WindowParts(val);
  }

  lemma EndByte(window: nat, n: nat, tail: seq<Byte>)
    requires |tail| == n
    ensures Shl(window / 256, 8 * (n + 1)) + Be([window % 256] + tail) == Shl(window, 8 * n) + Be(tail)
  {
    BeConcat([window % 256], tail);
    BeSnoc([], window % 256);
    assert [] + [window % 256] == [window % 256];
    ShlByte(window / 256, 8 * n);
    ShlSum(256 * (window / 256), window % 256, 8 * n);
    TimesByte(window / 256, 8 * n);
  }

  lemma {:induction false} TimesByte(x: int, n: nat)
    ensures Shl(256 * x, n) == 256 * Shl(x, n)
  {
    if n > 0 {
      TimesByte(x, n - 1);
    }
  }

  lemma WindowGrows(window: nat, used: nat, fl: nat, n: nat)
    requires window < Pow2(used) && fl < Pow2(n) && used + n <= 32
    ensures Shl(fl, used) >= 0 && fl % WORD == fl
    ensures Or(window, Shl(fl % WORD, used)) % WORD == window + Shl(fl, used) < Pow2(used + n) <= WORD
  {
    WordBound(fl, n);
    WordBound(0, used + n);
    OrSum(fl, window, used);
    SumBound(fl, n, window, used, used + n);
  }

  lemma WordBound(x: nat, n: nat)
    requires n <= 32
    ensures Pow2(n) <= WORD && (x < Pow2(n) ==> x % WORD == x)
  {
    Pow2Words();
    Pow2Mono(n, 32);
  }

  lemma RawGrows(c: Coder, window: nat, used: nat, n: nat, tail: nat, fl: nat)
    requires c.m == 8 * n + used && c.raw == Shl(window, 8 * n) + tail
    ensures c.raw + Shl(fl, c.m) == Shl(window + Shl(fl, used), 8 * n) + tail
  {
    ShlShl(fl, used, 8 * n);
    assert used + 8 * n == c.m;
    ShlSum(window, Shl(fl, used), 8 * n);
  }

  lemma RawStepBound(c: Coder, n: nat, fl: nat)
    requires c.raw < Pow2(c.m) && fl < Pow2(n)
    ensures RawStep(c, n, fl).raw < Pow2(c.m + n)
  {
    ShlStep(fl, Pow2(n), c.m);
    Pow2Shl(n, c.m);
    assert n + c.m == c.m + n;
  }

  /** x without its k low bits: x & ~((1 << k) - 1). */
  function Clear(x: int, k: nat): int {
    Shl(Shr(x, k), k)
  }

  lemma ClearTwice(x: int, k: nat)
    ensures Clear(x, k) == Shl(Shr(Clear(x, k), k), k)
  {
    LowShl(Shr(x, k), k);
  }

  /** Rounding up to a multiple of 2^k. */
  lemma ClearUp(x: int, k: nat)
    ensures x <= Clear(x + Pow2(k) - 1, k) < x + Pow2(k)
  {
    LowBounds(x + Pow2(k) - 1, k);
  }

  lemma ClearOr(x: nat, k: nat)
    ensures Clear(x, k) >= 0 && Pow2(k) > 0
    ensures Or(Clear(x, k), Pow2(k) - 1) == Clear(x, k) + Pow2(k) - 1
  {
    Pow2Pos(k);
    ShrNat(x, k);
    OrSum(Shr(x, k), Pow2(k) - 1, k);
  }

  lemma FinishBounds(val: nat, rng: nat)
    requires BOT < rng <= TOP && val + rng < WORD
    ensures var l := 32 - BitLen(rng);
      && 0 <= l <= 8 && Shr(TOP - 1, l) == Pow2(31 - l) - 1 && Pow2(31 - l) <= rng
      && Pow2(31 - l) == 2 * Pow2(30 - l) && Pow2(30 - l) > 0
  {
    var l := 32 - BitLen(rng);
    RangeBits(rng);
    BitLenBounds(rng);
    Pow2Words();
    Pow2Pos(l);
    Pow2Pos(30 - l);
    ShlShl(1, 31 - l, l);
    ShlSum(Pow2(31 - l) - 1, 1, l);
    assert TOP - 1 == Shl(Pow2(31 - l) - 1, l) + (Pow2(l) - 1);
    ShrSplit(Pow2(31 - l) - 1, Pow2(l) - 1, l);
  }

  lemma FrontIsWhole(g: nat, spare: nat, head: nat, end: nat)
    requires end < TOP && Shl(g, 31 + spare) == head * TOP + end
    ensures head == Shl(g, spare)
  {
    Pow2Words();
    ShlShl(g, spare, 31);
    assert spare + 31 == 31 + spare;
    TopTimes(head);
    ShrSplit(head, end, 31);
    LowShl(Shl(g, spare), 31);
  }

  lemma TopTimes(x: int)
    ensures Shl(x, 31) == x * TOP
  {
    ShlByte(x, 0);
    ShlByte(x, 8);
    ShlByte(x, 16);
    assert Shl(x, 31) == 2 * Shl(x, 30) == 4 * Shl(x, 29) == 8 * Shl(x, 28) == 16 * Shl(x, 27);
    assert Shl(x, 27) == 2 * Shl(x, 26) == 4 * Shl(x, 25) == 8 * Shl(x, 24);
  }

  /** The last m bits of a packet. */
  ghost predicate RawIs(data: seq<Byte>, raw: nat, m: nat) {
    Low(Be(data), m) == raw
  }

  /** The first n bytes of a packet are g, and then at most `spare` other bits. */
  ghost predicate HeadIs(data: seq<Byte>, n: nat, g: nat, spare: nat) {
    n <= |data| && Shl(g, spare) <= Be(data[..n]) < Shl(g, spare) + Pow2(spare)
  }

  lemma RawAt(head: seq<Byte>, tail: seq<Byte>, x: nat, u: nat, w: nat, raw: nat, m: nat)
    requires Be(head) == Shl(x, u) + w && w < Pow2(u)
    requires raw == Shl(w, 8 * |tail|) + Be(tail) && m == 8 * |tail| + u
    ensures RawIs(head + tail, raw, m)
  {
    BeConcat(head, tail);
    BeBound(tail);
    RawSum(Be(head), x, u, w, Be(tail), 8 * |tail|, Be(head + tail), raw, m);
  }

  lemma RawSum(h: nat, x: nat, u: nat, w: nat, tail: nat, k: nat, total: nat, raw: nat, m: nat)
    requires w < Pow2(u) && tail < Pow2(k) && h == Shl(x, u) + w && m == k + u
    requires total == Shl(h, k) + tail && raw == Shl(w, k) + tail
    ensures Low(total, m) == raw
  {
    ShlMore(x, u, w, k, m);
    SumBound(w, u, tail, k, m);
    assert total == Shl(x, m) + raw;
    ShrSplit(x, raw, m);
  }

  lemma ShlMore(x: nat, u: nat, w: nat, k: nat, m: nat)
    requires m == k + u
    ensures Shl(Shl(x, u) + w, k) == Shl(x, m) + Shl(w, k)
  {
    ShlSum(Shl(x, u), w, k);
    ShlShl(x, u, k);
    assert u + k == m;
  }

  lemma SumBound(w: nat, u: nat, tail: nat, k: nat, m: nat)
    requires w < Pow2(u) && tail < Pow2(k) && m == k + u
    ensures 0 <= Shl(w, k) && Shl(w, k) + tail < Pow2(m)
  {
    ShlStep(w, Pow2(u), k);
    Pow2Shl(u, k);
    ShlNat(w, k);
    assert u + k == m;
  }

  lemma NoShare(data: seq<Byte>, offs: nat, n: nat, g: nat, spare: nat, w: nat, raw: nat, m: nat)
    requires offs + n <= |data| && w < Pow2(0) && Be(data[..offs]) == Shl(g, spare)
    requires raw == Shl(w, 8 * n) + Be(data[|data| - n..]) && m == 8 * n
    ensures RawIs(data, raw, m) && HeadIs(data, offs, g, spare)
  {
    var head, tail := data[..|data| - n], data[|data| - n..];
    assert data == head + tail;
    Pow2Pos(spare);
    RawAt(head, tail, Be(head), 0, w, raw, m);
  }

  /** The last raw bits share a byte with nothing, or with spare bits only. */
  lemma ShareFits(was: seq<Byte>, data: seq<Byte>, offs: nat, n: nat, g: nat, spare: nat, w: nat, u: nat, raw: nat, m: nat)
    requires offs + n <= |was| && n < |was| && 0 < u < 8 && spare < 8 && w < Pow2(u)
    requires Be(was[..offs]) == Shl(g, spare) && was[offs..|was| - n] == Fill(0, |was| - n - offs)
    requires offs + n == |was| ==> u <= spare
    requires raw == Shl(w, 8 * n) + Be(was[|was| - n..]) && m == 8 * n + u
    requires 0 <= Or(was[|was| - n - 1], w % 256) < 256
    requires data == was[|was| - n - 1 := Or(was[|was| - n - 1], w % 256)]
    ensures RawIs(data, raw, m) && HeadIs(data, offs, g, spare)
  {
    var last := |was| - n - 1;
    var head, tail := was[..last], was[last + 1..];
    assert tail == was[|was| - n..];
    assert data == (head + [data[last]]) + tail;
    if offs == last + 1 {
      assert was[..offs] == head + [was[last]];
      assert data[..offs] == head + [data[last]];
      SmallWindow(w, u);
      ShareRaw(head, was[last], data[last], tail, g, spare, w, u, raw, m);
    } else {
      assert was[last] == was[offs..|was| - n][last - offs] == 0;
      assert data[..offs] == was[..offs];
      Pow2Pos(spare);
      SmallWindow(w, u);
      OwnRaw(head, tail, w, u, raw, m);
    }
  }

  lemma SmallWindow(w: nat, u: nat)
    requires u < 8 && w < Pow2(u)
    ensures w % 256 == w
  {
    Pow2Values();
    Pow2Mono(u, 8);
  }

  lemma ShareRaw(head: seq<Byte>, b: Byte, c: Byte, tail: seq<Byte>, g: nat, spare: nat, w: nat, u: nat, raw: nat, m: nat)
    requires u <= spare < 8 && w < Pow2(u) && Be(head + [b]) == Shl(g, spare) && c == Or(b, w)
    requires raw == Shl(w, 8 * |tail|) + Be(tail) && m == 8 * |tail| + u
    ensures RawIs(head + [c] + tail, raw, m)
    ensures Shl(g, spare) <= Be(head + [c]) < Shl(g, spare) + Pow2(spare)
  {
    BeSnoc(head, b);
    BeSnoc(head, c);
    SpareOr(b, Be(head), g, spare, u, w);
    Pow2Mono(u, spare);
    ShlShl(g, spare - u, u);
    ShlNat(g, spare - u);
    RawAt(head + [c], tail, Shl(g, spare - u), u, w, raw, m);
  }

  lemma OwnRaw(head: seq<Byte>, tail: seq<Byte>, w: nat, u: nat, raw: nat, m: nat)
    requires u < 8 && w < Pow2(u) && w < 256
    requires raw == Shl(w, 8 * |tail|) + Be(tail) && m == 8 * |tail| + u
    ensures RawIs(head + [w] + tail, raw, m)
  {
    BeSnoc(head, w);
    ByteShift(Be(head), u);
    RawAt(head + [w], tail, Shl(Be(head), 8 - u), u, w, raw, m);
  }

  lemma ByteShift(x: nat, u: nat)
    requires u <= 8
    ensures Shl(x, 8 - u) >= 0 && Shl(Shl(x, 8 - u), u) == 256 * x
  {
    ShlShl(x, 8 - u, u);
    ShlByte(x, 0);
    ShlNat(x, 8 - u);
  }

  lemma SpareOr(b: Byte, x: nat, g: nat, spare: nat, u: nat, w: nat)
    requires u <= spare < 8 && w < Pow2(u) && 256 * x + b == Shl(g, spare)
    ensures Or(b, w) == b + w
  {
    SpareBits(b, x, g, spare);
    var h := g - Shl(x, 8 - spare);
    ShlShl(h, spare - u, u);
    ShlNat(h, spare - u);
    OrSum(Shl(h, spare - u), w, u);
  }

  lemma SpareBits(b: nat, x: nat, g: nat, spare: nat)
    requires spare <= 8 && 256 * x + b == Shl(g, spare)
    ensures var h := g - Shl(x, 8 - spare); h >= 0 && b == Shl(h, spare)
  {
    var h := g - Shl(x, 8 - spare);
    ByteShift(x, spare);
    ShlSum(h, Shl(x, 8 - spare), spare);
    ShlZero(spare);
    ShlLess(h, 0, spare);
  }

  lemma WindowByte(b: Byte, window: nat, used: nat, spare: nat)
    requires window < Pow2(used) && used < 8 && spare < 8
    ensures 0 <= Low(window, spare) < 256
    ensures 0 <= Or(b, window % 256) < 256 && 0 <= Or(b, Low(window, spare) % 256) < 256
  {
    Pow2Values();
    Pow2Mono(used, 8);
    Pow2Mono(spare, 8);
    LowBounds(window, spare);
    OrBound(b, window % 256, 8);
    OrBound(b, Low(window, spare) % 256, 8);
  }

  lemma EndValue(head: nat, tip: nat, l: nat, end: nat) returns (g: nat)
    requires l <= 9 && end == Shl(tip, 31 - l)
    ensures head * TOP + end == Shl(g, 31 - l)
  {
    ShlNat(head, l);
    g := Shl(head, l) + tip;
    ShlSum(Shl(head, l), tip, 31 - l);
    ShlShl(head, l, 31 - l);
    TopTimes(head);
  }

  /** A packet that starts with the bits of the end lies in the interval. */
  lemma HeadHolds(data: seq<Byte>, s: Span, n: nat, g: nat, spare: nat, l: nat)
    requires HeadIs(data, n, g, spare) && l <= 9 && 8 * n - spare == s.t - 31 + l >= 0
    requires s.v <= Shl(g, 31 - l) && Shl(g, 31 - l) + Pow2(31 - l) <= s.v + s.rng
    ensures Holds(data, s)
  {
    var k, x := 8 * n - spare, Code(data, s.t);
    CodeBytes(data, n);
    CodePrefix(data, k, spare);
    ShrUnique(Code(data, 8 * n), spare, g);
    CodePrefix(data, k, 31 - l);
    assert k + (31 - l) == s.t;
    ShrLess(x, 31 - l, g);
    ShrLess(x, 31 - l, g + 1);
    ShlSum(g, 1, 31 - l);
  }

  lemma NoMultiple(g: nat)
    requires Shl(g, 31) < TOP
    ensures Shl(g, 31) == 0
  {
    Pow2Words();
    ShlLess(g, 1, 31);
    ShlZero(31);
  }

  lemma FillMore(head: seq<Byte>, b: Byte, n: nat)
    ensures head + Fill(b, n) + [b] == head + Fill(b, n + 1)
  {
    assert Fill(b, n) + [b] == Fill(b, n + 1);
  }

  lemma HeldValue(head: seq<Byte>, rem: int, n: nat, carry: nat)
    requires -1 <= rem < 256 && carry <= 1 && (carry == 1 ==> 0 <= rem < 255)
    ensures var was := head + (if rem >= 0 then [rem] else []) + Fill(255, n);
      var now := head + (if rem >= 0 then [rem + carry] else []) + Fill((255 + carry) % 256, n);
      |was| == |now| && Be(now) == Be(was) + carry
  {
    if carry == 1 {
      CarryValue(head, rem, n);
    }
  }
}
