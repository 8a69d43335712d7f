/** The bit buffer of the JPEG writer with its byte stuffing, and the coding loops of
  `stbiw__jpg_processDU`.
 */
module JpegWriting {
  import opened Bits
  import opened JpegCoding

  // ------------------------------------------------------------ byte stuffing

  /** Drop the zero byte behind every 255. */
  function Unstuffed(out: seq<Byte>): seq<Byte> {
    if out == [] then []
    else if out[0] == 255 && |out| >= 2 && out[1] == 0 then [255] + Unstuffed(out[2..])
    else [out[0]] + Unstuffed(out[1..])
  }

  function Stuffed(bytes: seq<Byte>): seq<Byte> {
    if bytes == [] then []
    else Stuffed(bytes[..|bytes| - 1]) + (if bytes[|bytes| - 1] == 255 then [255, 0] else [bytes[|bytes| - 1]])
  }

  function StuffedByte(b: Byte): seq<Byte> { if b == 255 then [255, 0] else [b] }

  lemma {:induction false} StuffedCons(b: Byte, bytes: seq<Byte>)
    ensures Stuffed([b] + bytes) == StuffedByte(b) + Stuffed(bytes)
    decreases |bytes|
  {
    var s := [b] + bytes;
    if bytes == [] {
      assert s[..0] == [] && s == [b];
      assert Stuffed(s) == Stuffed([]) + StuffedByte(b);
    } else {
      StuffedCons(b, bytes[..|bytes| - 1]);
      assert s[..|s| - 1] == [b] + bytes[..|bytes| - 1];
      assert Stuffed(s) == StuffedByte(b) + Stuffed(bytes[..|bytes| - 1]) + StuffedByte(s[|s| - 1]);
    }
  }

  /** Stuffing can be undone. */
  lemma {:induction false} UnstuffedStuffed(bytes: seq<Byte>)
    ensures Unstuffed(Stuffed(bytes)) == bytes
    decreases |bytes|
  {
    if bytes != [] {
      var b, rest := bytes[0], bytes[1..];
      assert bytes == [b] + rest;
      StuffedCons(b, rest);
      UnstuffedStuffed(rest);
      var s := StuffedByte(b) + Stuffed(rest);
      if b == 255 {
        assert s[2..] == Stuffed(rest);
      } else {
        assert s[1..] == Stuffed(rest);
      }
    }
  }

  /** The bits of bytes, highest first. */
  function HighFirst(bytes: seq<Byte>): (s: seq<bool>)
    ensures |s| == 8 * |bytes|
  {
    if bytes == [] then [] else HighFirst(bytes[..|bytes| - 1]) + CodeBits(bytes[|bytes| - 1], 8)
  }

  // ---------------------------------------------------------- buffer arithmetic

  const TOP: nat := 0x100_0000

  /** The buffer's 24 low bits begin with the `cnt` bits of `pending`. */
  ghost predicate Holds(buf: nat, pending: nat, cnt: nat) {
    cnt <= 24 && pending < Pow2(cnt) && buf % TOP == pending * Pow2(24 - cnt)
  }

  /** Its first byte goes out, and the rest moves up. */
  lemma EmitByte(buf: nat, pending: nat, cnt: nat)
    requires 8 <= cnt && Holds(buf, pending, cnt)
    ensures var c, low := buf / 65536 % 256, pending % Pow2(cnt - 8);
            pending == c * Pow2(cnt - 8) + low && Holds(buf * 256 % 0x1_0000_0000, low, cnt - 8)
  {
    hide Pow2;
    SmallPowers();
    PowAdd(cnt - 8, 24 - cnt);
    PowAdd(cnt - 8, 8);
    PowAdd(24 - cnt, 8);
    EmitArith(buf, pending, Pow2(cnt - 8), Pow2(24 - cnt));
  }

  lemma EmitArith(buf: nat, pending: nat, e: nat, k: nat)
    requires e > 0 && k > 0 && e * k == 65536 && pending < e * 256 && buf % TOP == pending * k
    ensures pending == buf / 65536 % 256 * e + pending % e
    ensures buf * 256 % 0x1_0000_0000 % TOP == pending % e * (k * 256)
  {
    var c, low := pending / e, pending % e;
    var l := low * k;
    BelowQuotient(pending, e, 256);
    Scale(low, e, k);
    Distribute(c, e, low, k);
    Digits(buf, c, l);
    Reassociate(low, k);
  }

  lemma SmallPowers()
    ensures Pow2(8) == 256 && Pow2(16) == 65536 && Pow2(24) == TOP
  {
    PowAdd(8, 8);
    PowAdd(16, 8);
    assert Pow2(8) == 256;
  }

  lemma BelowQuotient(x: nat, e: nat, n: nat)
    requires e > 0 && x < e * n
    ensures x / e < n
  {
    var q := x / e;
    assert q * e <= x;
    assert q >= n ==> q * e >= e * n;
  }

  lemma Scale(a: nat, b: nat, k: nat)
    requires a < b && k > 0
    ensures a * k < b * k
  {
  }

  lemma Distribute(c: nat, e: nat, low: nat, k: nat)
    requires e * k == 65536
    ensures (c * e + low) * k == c * 65536 + low * k
  {
    assert c * e * k == c * (e * k);
  }

  lemma Reassociate(low: nat, k: nat)
    ensures low * k * 256 == low * (k * 256)
  {
  }

  lemma Digits(buf: nat, c: nat, l: nat)
    requires c < 256 && l < 65536 && buf % TOP == c * 65536 + l
    ensures buf / 65536 % 256 == c
    ensures buf * 256 % 0x1_0000_0000 % TOP == l * 256
  {
    var h := buf / TOP;
    DivisionIs(buf, 65536, h * 256 + c, l);
    DivisionIs(h * 256 + c, 256, h, c);
    DivisionIs(buf * 256, 0x1_0000_0000, h, c * TOP + l * 256);
    DivisionIs(c * TOP + l * 256, TOP, c, l * 256);
  }

  /** More bits go in behind those the buffer holds. */
  lemma AddBits(buf: nat, pending: nat, cnt: nat, value: nat, n: nat)
    requires Holds(buf, pending, cnt) && cnt + n <= 24 && value < Pow2(n) && buf < 0x1_0000_0000
    ensures var more := Or(buf, value * Pow2(24 - cnt - n));
            Holds(more, pending * Pow2(n) + value, cnt + n) && more < 0x1_0000_0000
  {
    hide Pow2, Or;
    var a, b, k, m := Pow2(cnt), Pow2(n), Pow2(24 - cnt), Pow2(24 - cnt - n);
    assert k == m * b by { PowAdd(24 - cnt - n, n); }
    assert Pow2(cnt + n) == a * b by { PowAdd(cnt, n); }
    assert k * a == TOP by { PowAdd(24 - cnt, cnt); SmallPowers(); }
    assert m * (a * b) == TOP by { PowAdd(cnt, n); PowAdd(24 - cnt - n, cnt + n); SmallPowers(); }
    AddArith(buf, pending, value, a, b, k, m);
    OrInto(buf, buf / TOP * a + pending, value * m, 24 - cnt);
  }

  lemma OrInto(buf: nat, c: nat, low: nat, n: nat)
    requires low < Pow2(n) && buf == c * Pow2(n)
    ensures Or(buf, low) == buf + low
  {
    hide Or, Pow2;
    OrCommutes(buf, low);
    OrIsSum(low, n, c);
  }

  lemma AddArith(buf: nat, pending: nat, value: nat, a: nat, b: nat, k: nat, m: nat)
    requires pending < a && value < b && m > 0 && k == m * b && k * a == TOP && m * (a * b) == TOP
    requires buf % TOP == pending * k && buf < 0x1_0000_0000
    ensures value * m < k && buf == (buf / TOP * a + pending) * k
    ensures pending * b + value < a * b && (buf + value * m) % TOP == (pending * b + value) * m
    ensures buf + value * m < 0x1_0000_0000
  {
    Scale(value, b, m);
    Split(buf / TOP, a, pending, k);
    Below(pending, a, value, b);
    Together(pending, b, value, m, k);
    Scale(pending * b + value, a * b, m);
    Upper(buf, value * m, (pending * b + value) * m, pending * k);
  }

  lemma Upper(buf: nat, low: nat, next: nat, high: nat)
    requires buf % TOP == high && high + low == next < TOP && buf < 0x1_0000_0000
    ensures (buf + low) % TOP == next && buf + low < 0x1_0000_0000
  {
    assert buf + low == buf / TOP * TOP + next;
  }

  lemma Split(h: nat, a: nat, pending: nat, k: nat)
    requires k * a == TOP
    ensures h * TOP + pending * k == (h * a + pending) * k
  {
    assert h * a * k == h * (k * a);
  }

  lemma Below(p: nat, a: nat, v: nat, b: nat)
    requires p < a && v < b
    ensures p * b + v < a * b
  {
    assert (p + 1) * b <= a * b;
  }

  lemma Together(p: nat, b: nat, v: nat, m: nat, k: nat)
    requires k == m * b
    ensures p * k + v * m == (p * b + v) * m
  {
    assert p * b * m == p * (m * b);
  }

  // -------------------------------------------------------------- the writer

  lemma HighFirstPush(bytes: seq<Byte>, b: Byte)
    ensures HighFirst(bytes + [b]) == HighFirst(bytes) + CodeBits(b, 8)
  {
    assert (bytes + [b])[..|bytes|] == bytes;
  }

  lemma StuffedPush(bytes: seq<Byte>, b: Byte)
    ensures Stuffed(bytes + [b]) == Stuffed(bytes) + StuffedByte(b)
  {
    assert (bytes + [b])[..|bytes|] == bytes;
  }

  class JpegWriter {
    var out: seq<Byte>
    var bitBuf: Word
    var bitCnt: nat
    /** The bytes put out, before stuffing, and the bits that wait. */
    ghost var bytes: seq<Byte>
    ghost var pending: nat

    ghost predicate Valid()
      reads this
    {
      bitCnt < 8 && Holds(bitBuf, pending, bitCnt) && out == Stuffed(bytes)
    }

    /** Everything written so far. */
    ghost function Bits(): seq<bool>
      reads this
    {
      HighFirst(bytes) + CodeBits(pending, bitCnt)
    }

    constructor ()
      ensures Valid() && Bits() == [] && bytes == []
    {
      out, bitBuf, bitCnt, bytes, pending := [], 0, 0, [], 0;
    }

    /** The code goes in behind the bits that wait. */
    method Append(bs: Code)
      requires Valid() && bs.size <= 16 && bs.value < Pow2(bs.size)
      modifies this
      ensures bitCnt == old(bitCnt) + bs.size && Holds(bitBuf, pending, bitCnt) && out == Stuffed(bytes)
      ensures Bits() == old(Bits()) + bs.Bits()
    {
      hide Holds, CodeBits, HighFirst, Stuffed, Or, Pow2;
      CodeBitsJoin(pending, bs.value, bitCnt, bs.size);
      AddBits(bitBuf, pending, bitCnt, bs.value, bs.size);
      bitBuf := Or(bitBuf, bs.value * Pow2(24 - bitCnt - bs.size));
      pending := pending * Pow2(bs.size) + bs.value;
      bitCnt := bitCnt + bs.size;
    }

    /** `stbiw__jpg_writeBits` */
    method WriteBits(bs: Code)
      requires Valid() && bs.size <= 16 && bs.value < Pow2(bs.size)
      modifies this
      ensures Valid() && Bits() == old(Bits()) + bs.Bits()
      ensures bitCnt == (old(bitCnt) + bs.size) % 8
    {
      hide Holds, Stuffed, Pow2, JpegWriter.Bits, Code.Bits;
      Append(bs);
      while bitCnt >= 8
        invariant bitCnt <= 23 && Holds(bitBuf, pending, bitCnt) && out == Stuffed(bytes)
        invariant Bits() == old(Bits()) + bs.Bits() && bitCnt % 8 == (old(bitCnt) + bs.size) % 8
      {
        PutByte();
      }
    }

    /** One round of the loop. */
    method PutByte()
      requires 8 <= bitCnt && Holds(bitBuf, pending, bitCnt) && out == Stuffed(bytes)
      modifies this
      ensures Holds(bitBuf, pending, bitCnt) && out == Stuffed(bytes)
      ensures Bits() == old(Bits()) && bitCnt == old(bitCnt) - 8
    {
      hide Holds, CodeBits, HighFirst, Stuffed, Pow2;
      var c: Byte := bitBuf / 65536 % 256;
      EmitByte(bitBuf, pending, bitCnt);
      ghost var low := pending % Pow2(bitCnt - 8);
      CodeBitsJoin(c, low, 8, bitCnt - 8);
      HighFirstPush(bytes, c);
      StuffedPush(bytes, c);
      out := out + [c];
      if c == 255 {
        out := out + [0];
      }
      bytes := bytes + [c];
      pending := low;
      bitBuf := bitBuf * 256 % 0x1_0000_0000;
      bitCnt := bitCnt - 8;
    }

    /** `stbiw__jpg_calcBits` */
    method CalcBits(val0: int) returns (bits: Code)
      ensures bits == Extra(val0)
    {
      var tmp := if val0 < 0 then -val0 else val0;
      var val := if val0 < 0 then val0 - 1 else val0;
      var n := 1;
      tmp := tmp / 2;
      while tmp != 0
        invariant tmp >= 0 && n >= 1 && Category(Magnitude(val0)) == if tmp == 0 then n else n + Category(tmp)
      {
        n := n + 1;
        tmp := tmp / 2;
      }
      bits := Code(val % Pow2(n), n);
    }

    /** The coding half of `stbiw__jpg_processDU`. */
    method ProcessBlock(t: Tables, du: Block, dc: int) returns (newDc: int)
      requires Valid() && CodesFit(t.dc) && CodesFit(t.ac) && Indexed(du, dc)
      modifies this
      ensures Valid() && Bits() == old(Bits()) + BlockBits(t, du, dc) && newDc == du[0]
    {
      hide JpegWriter.Bits, Holds, DcBits, AcBits, CodesFit, Indexed;
      WriteDc(t, du[0] - dc, du, dc);
      WriteAcs(t, du, dc);
      newDc := du[0];
    }

    method WriteDc(t: Tables, diff: int, ghost du: Block, ghost dc: int)
      requires Valid() && CodesFit(t.dc) && Indexed(du, dc) && diff == du[0] - dc
      modifies this
      ensures Valid() && Bits() == old(Bits()) + DcBits(t, diff)
    {
      hide JpegWriter.Bits, Holds, Code.Bits, Extra, Category, Pow2;
      if diff == 0 {
        WriteBits(t.dc[0]);
      } else {
        var bits := CalcBits(diff);
        WriteBits(t.dc[bits.size]);
        WriteBits(bits);
      }
    }

    method WriteAcs(t: Tables, du: Block, ghost dc: int)
      requires Valid() && CodesFit(t.ac) && Indexed(du, dc)
      modifies this
      ensures Valid() && Bits() == old(Bits()) + AcBits(t, du, 1)
    {
      hide JpegWriter.Bits, Holds, Code.Bits, CodesFit, Indexed, Pow2;
      var eob := t.ac[0];
      CodeFits(t.ac, 0);
      var end0pos := 63;
      while end0pos > 0 && du[end0pos] == 0
        invariant 0 <= end0pos <= 63 && forall k | end0pos < k < 64 :: du[k] == 0
      {
        end0pos := end0pos - 1;
      }
      if end0pos == 0 {
        RestIsZero(t, du, 1);
        WriteBits(eob);
        return;
      }
      var i := 1;
      while i <= end0pos
        invariant 1 <= i <= end0pos + 1 && Valid()
        invariant Bits() + AcBits(t, du, i) == old(Bits()) + AcBits(t, du, 1)
      {
        i := WriteAc(t, du, dc, i, end0pos);
      }
      RestIsZero(t, du, i);
      if end0pos != 63 {
        WriteBits(eob);
      }
      assert Bits() + [] == Bits();
    }

    /** The next nonzero coefficient with the zeros before it. */
    method WriteAc(t: Tables, du: Block, ghost dc: int, start: nat, end0pos: nat) returns (i: nat)
      requires Valid() && CodesFit(t.ac) && Indexed(du, dc)
      requires 0 < start <= end0pos < 64 && du[end0pos] != 0
      modifies this
      ensures Valid() && start < i <= end0pos + 1
      ensures Bits() + AcBits(t, du, i) == old(Bits()) + AcBits(t, du, start)
    {
      hide JpegWriter.Bits, Holds, Code.Bits, CodesFit, Indexed, Pow2, Category, Extra, AcBits, Markers, SymbolBits,
        AcSymbol, RunAt, Stuffed;
      i := start;
      while du[i] == 0 && i <= end0pos
        invariant start <= i <= end0pos && forall k | start <= k < i :: du[k] == 0
      {
        i := i + 1;
      }
      NextCoefficient(t, du, start, i - start);
      WriteCoefficient(t, du, dc, i, i - start);
      i := i + 1;
    }

    /** The coefficient at position `i` behind `run` zeros. */
    method WriteCoefficient(t: Tables, du: Block, ghost dc: int, i: nat, run: nat)
      requires Valid() && CodesFit(t.ac) && Indexed(du, dc) && 0 < i < 64 && du[i] != 0
      modifies this
      ensures Valid()
      ensures Bits() == old(Bits())
              + (Markers(t, run / 16) + SymbolBits(t.ac, AcSymbol(run, du[i])) + Extra(du[i]).Bits())
    {
      hide JpegWriter.Bits, Holds, Code.Bits, CodesFit, Indexed, Pow2, Category, Extra, Markers;
      var nrzeroes := run;
      if nrzeroes >= 16 {
        WriteMarkers(t, du, dc, nrzeroes / 16);
        nrzeroes := nrzeroes % 16;
      } else {
        NoMarkers(t);
      }
      assert Bits() == old(Bits()) + Markers(t, run / 16);
      var bits := CalcBits(du[i]);
      IndexedAt(du, dc, i);
      CodeFits(t.ac, nrzeroes * 16 + bits.size);
      SameSymbol(run, du[i]);
      WriteBits(t.ac[nrzeroes * 16 + bits.size]);
      WriteBits(bits);
    }

    method WriteMarkers(t: Tables, ghost du: Block, ghost dc: int, lng: nat)
      requires Valid() && CodesFit(t.ac) && Indexed(du, dc)
      modifies this
      ensures Valid() && Bits() == old(Bits()) + Markers(t, lng)
    {
      hide JpegWriter.Bits, Holds, Code.Bits, CodesFit, Indexed, Pow2;
      CodeFits(t.ac, ZRL);
      for k := 0 to lng
        invariant Valid() && Bits() == old(Bits()) + Markers(t, k)
      {
        MarkersPush(t, k);
        WriteBits(t.ac[ZRL]);
      }
    }

    /** The bit alignment at the end of the scan: seven ones. */
    method Finish() returns (ghost ones: seq<bool>)
      requires Valid()
      modifies this
      ensures Valid() && out == Stuffed(bytes)
      ensures |ones| < 8 && HighFirst(bytes) == old(Bits()) + ones && forall i | 0 <= i < |ones| :: ones[i]
    {
      hide Holds, CodeBits, HighFirst, Stuffed;
      SevenOnes();
      assert Pow2(7) == 128;
      WriteBits(Code(0x7f, 7));
      assert HighFirst(bytes) == Bits()[..|HighFirst(bytes)|];
      ones := HighFirst(bytes)[|old(Bits())|..];
      assert HighFirst(bytes)[..|old(Bits())|] == Bits()[..|old(Bits())|] == old(Bits());
      assert forall i | 0 <= i < |ones| :: ones[i] == Bits()[|old(Bits())| + i];
    }
  }

  lemma SevenOnes()
    ensures forall i | 0 <= i < 7 :: CodeBits(0x7f, 7)[i]
  {
    assert CodeBits(0x7f, 7) == [true, true, true, true, true, true, true];
  }

  lemma NoMarkers(t: Tables)
    ensures Markers(t, 0) == []
  {
  }

  lemma CodeFits(t: Table, symbol: nat)
    requires CodesFit(t) && symbol < 256
    ensures t[symbol].size <= 16 && t[symbol].value < Pow2(t[symbol].size)
  {
  }

  lemma IndexedAt(b: Block, dc: int, i: nat)
    requires Indexed(b, dc) && 0 < i < 64
    ensures Category(Magnitude(b[i])) <= 15
  {
  }

  lemma RunIs(b: Block, i: nat, n: nat)
    requires i + n < 64 && b[i + n] != 0 && forall k | i <= k < i + n :: b[k] == 0
    ensures RunAt(b, i) == n
    decreases n
  {
    if n > 0 {
      RunIs(b, i + 1, n - 1);
    }
  }

  lemma NextCoefficient(t: Tables, b: Block, i: nat, n: nat)
    requires i + n < 64 && b[i + n] != 0 && forall k | i <= k < i + n :: b[k] == 0
    ensures AcBits(t, b, i) == Markers(t, n / 16) + SymbolBits(t.ac, AcSymbol(n, b[i + n])) + Extra(b[i + n]).Bits()
                               + AcBits(t, b, i + n + 1)
  {
    hide Markers, SymbolBits, Extra, AcSymbol, RunAt, Code.Bits;
    RunIs(b, i, n);
  }

  /** Behind the last nonzero coefficient there is the end of block, or nothing. */
  lemma RestIsZero(t: Tables, b: Block, i: nat)
    requires 0 < i <= 64 && forall k | i <= k < 64 :: b[k] == 0
    ensures AcBits(t, b, i) == if i == 64 then [] else t.ac[0].Bits()
  {
    var n := RunAt(b, i);
    assert i + n == 64;
  }

  lemma {:induction false} MarkersPush(t: Tables, n: nat)
    ensures Markers(t, n + 1) == Markers(t, n) + t.ac[ZRL].Bits()
  {
    if n > 0 {
      MarkersPush(t, n - 1);
    } else {
      assert Markers(t, 0) == [] && Markers(t, 1) == t.ac[ZRL].Bits() + [];
    }
  }

  /** The macroblock loop: every unit with the predictor of its component, then the padding. */
  method WriteScan(t: nat -> Tables, units: seq<Unit>) returns (out: seq<Byte>)
    requires (forall c :: CodesFit(t(c).dc) && CodesFit(t(c).ac)) && ScanIndexed(units)
    ensures var s := HighFirst(Unstuffed(out));
            && ScanBits(t, units) <= s && |s| < |ScanBits(t, units)| + 8
            && forall i | |ScanBits(t, units)| <= i < |s| :: s[i]
    ensures var scan := DecodeScan(t, HighFirst(Unstuffed(out)), Components(units));
            Codable(t, units) ==> scan.Some? && scan.value.0 == units && |scan.value.1| < 8
  {
    hide JpegWriter.Bits, Holds, BlockBits, CodesFit, Indexed, DecodeScan, Stuffed, HighFirst, Codable;
    var w := new JpegWriter();
    var dc: map<nat, int> := map[];
    for k := 0 to |units|
      invariant w.Valid() && w.Bits() == ScanBits(t, units[..k])
      invariant forall c: nat :: (if c in dc then dc[c] else 0) == Predictor(units[..k], c)
    {
      var u := units[k];
      var was := if u.component in dc then dc[u.component] else 0;
      var now := w.ProcessBlock(t(u.component), u.block, was);
      dc := dc[u.component := now];
      assert units[..k + 1][..k] == units[..k];
    }
    assert units[..|units|] == units;
    ghost var ones := w.Finish();
    out := w.out;
    UnstuffedStuffed(w.bytes);
    if Codable(t, units) {
      ReadsScan(t, units, ones);
    }
  }
}
