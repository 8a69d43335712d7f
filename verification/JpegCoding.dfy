/** Entropy coding of quantised blocks (ITU-T T.81, sections F.1.2 and F.2.2): what the
  writer puts out, and a reference decoder.
 */
module JpegCoding {
  import opened Options
  import opened Bits

  // ------------------------------------------------------------------- tables

  datatype Code = Code(value: nat, size: nat)
  {
    function Bits(): (s: seq<bool>)
      ensures |s| == size
    {
      CodeBits(value, size)
    }
  }

  /** A code table: size 0 marks a symbol without a code. */
  type Table = t: seq<Code> | |t| == 256 witness seq(256, _ => Code(0, 0))

  ghost predicate Uses(t: Table, symbol: nat) {
    symbol < 256 && t[symbol].size > 0
  }

  /** Codes fit 16 bits. */
  ghost predicate CodesFit(t: Table) {
    forall a | 0 <= a < 256 :: t[a].size <= 16 && t[a].value < Pow2(t[a].size)
  }

  /** Codes fit 16 bits, and none begins another. */
  ghost predicate PrefixFree(t: Table) {
    && CodesFit(t)
    && (forall a, b | 0 <= a < 256 && 0 <= b < 256 && a != b && t[a].size > 0 && t[b].size > 0 ::
          !(t[a].Bits() <= t[b].Bits()))
  }

  /** The first symbol from `k` on whose code begins `s`. */
  function Lookup(t: Table, s: seq<bool>, k: nat): (symbol: Option<nat>)
    requires k <= 256
    ensures symbol.Some? ==> symbol.value < 256 && 0 < t[symbol.value].size <= |s|
    decreases 256 - k
  {
    if k == 256 then None
    else if t[k].size > 0 && t[k].Bits() <= s then Some(k)
    else Lookup(t, s, k + 1)
  }

  /** Two codes that begin the same string begin one another. */
  lemma {:induction false} LookupFinds(t: Table, symbol: nat, rest: seq<bool>, k: nat)
    requires PrefixFree(t) && Uses(t, symbol) && k <= symbol
    ensures Lookup(t, t[symbol].Bits() + rest, k) == Some(symbol)
    decreases 256 - k
  {
    hide Code.Bits;
    var s := t[symbol].Bits() + rest;
    if k < symbol {
      if t[k].size > 0 {
        var a, b := t[k].Bits(), t[symbol].Bits();
        assert !(a <= b) && !(b <= a);
        assert |a| <= |b| ==> s[..|a|] == b[..|a|];
        assert |b| <= |a| <= |s| ==> s[..|a|][..|b|] == b;
      }
      LookupFinds(t, symbol, rest, k + 1);
    }
  }

  // -------------------------------------------------------------------- values

  function Magnitude(v: int): nat { if v < 0 then -v else v }

  /** Number of bits of a magnitude; at least one. */
  function Category(m: nat): (n: nat)
    ensures n >= 1 && m < Pow2(n) && (n > 1 ==> Pow2(n - 1) <= m)
  {
    if m < 2 then 1 else Category(m / 2) + 1
  }

  /** The extra bits of a value: itself, or for a negative one its one's complement. */
  function Extra(v: int): (c: Code)
    ensures c.value < Pow2(c.size) && c.size == Category(Magnitude(v))
  {
    var n := Category(Magnitude(v));
    Code((if v < 0 then v - 1 else v) % Pow2(n), n)
  }

  /** The value that extra bits stand for (section F.2.2.1). */
  function Extend(value: nat, size: nat): int
    requires size > 0
  {
    if value < Pow2(size - 1) then value + 1 - Pow2(size) else value
  }

  lemma ExtendExtra(v: int)
    requires v != 0
    ensures Extend(Extra(v).value, Extra(v).size) == v
  {
    hide Category;
    var n := Category(Magnitude(v));
    Halves(n);
    hide Pow2;
    Remainder(v, Pow2(n - 1), Pow2(n));
  }

  lemma Halves(n: nat)
    requires n > 0
    ensures Pow2(n) == 2 * Pow2(n - 1) && (n == 1 ==> Pow2(n - 1) == 1)
  {
  }

  lemma Remainder(v: int, h: nat, p: nat)
    requires p == 2 * h && h <= Magnitude(v) < p
    ensures v > 0 ==> v % p == v >= h
    ensures v < 0 ==> (v - 1) % p == v - 1 + p < h
  {
    if v > 0 {
      DivisionIs(v, p, 0, v);
    } else {
      DivisionIs(v - 1, p, -1, v - 1 + p);
    }
  }

  lemma DivisionIs(x: int, p: nat, q: int, r: nat)
    requires x == q * p + r && r < p
    ensures x / p == q && x % p == r
  {
    var d := x / p - q;
    assert d * p == r - x % p;
    assert d >= 1 ==> d * p >= p;
    assert d <= -1 ==> d * p + p <= 0;
  }

  // ------------------------------------------------------------------ encoding

  /** A block in zigzag order: one DC and 63 AC coefficients. */
  type Block = b: seq<int> | |b| == 64 witness seq(64, _ => 0)

  function Zeros(n: nat): seq<int> { seq(n, _ => 0) }

  /** Zeros from position `i` on. */
  function RunAt(b: Block, i: nat): (n: nat)
    requires i <= 64
    ensures i + n <= 64 && (i + n < 64 ==> b[i + n] != 0) && b[i..i + n] == Zeros(n)
    decreases 64 - i
  {
    if i == 64 || b[i] != 0 then 0
    else
      var n := RunAt(b, i + 1);
      assert b[i..i + 1 + n] == [b[i]] + b[i + 1..i + 1 + n];
      1 + n
  }

  datatype Tables = Tables(dc: Table, ac: Table)

  const ZRL: nat := 0xf0

  /** The symbol of a nonzero coefficient behind `run` zeros. */
  function AcSymbol(run: nat, v: int): nat { run % 16 * 16 + Category(Magnitude(v)) }

  function Markers(t: Tables, n: nat): seq<bool> {
    if n == 0 then [] else t.ac[ZRL].Bits() + Markers(t, n - 1)
  }

  function SymbolBits(t: Table, symbol: nat): seq<bool> {
    if symbol < 256 then t[symbol].Bits() else []
  }

  /** The bits for the AC coefficients from position `i` on. */
  function AcBits(t: Tables, b: Block, i: nat): seq<bool>
    requires i <= 64
    decreases 64 - i
  {
    var n := RunAt(b, i);
    if i == 64 then []
    else if i + n == 64 then t.ac[0].Bits()
    else
      Markers(t, n / 16) + SymbolBits(t.ac, AcSymbol(n, b[i + n])) + Extra(b[i + n]).Bits() + AcBits(t, b, i + n + 1)
  }

  function DcBits(t: Tables, diff: int): seq<bool> {
    if diff == 0 then t.dc[0].Bits()
    else SymbolBits(t.dc, Category(Magnitude(diff))) + Extra(diff).Bits()
  }

  /** The bits of a block after one whose DC coefficient was `dc`. */
  function BlockBits(t: Tables, b: Block, dc: int): seq<bool> {
    DcBits(t, b[0] - dc) + AcBits(t, b, 1)
  }

  /** The tables have codes for all that the block needs. */
  ghost predicate Covers(t: Tables, b: Block, dc: int) {
    && Uses(t.ac, 0) && Uses(t.ac, ZRL)
    && (b[0] == dc ==> Uses(t.dc, 0))
    && (b[0] != dc ==> Category(Magnitude(b[0] - dc)) <= 16 && Uses(t.dc, Category(Magnitude(b[0] - dc))))
    && forall i, run | 1 <= i < 64 && b[i] != 0 && 0 <= run < 16 ::
         Category(Magnitude(b[i])) <= 15 && Uses(t.ac, AcSymbol(run, b[i]))
  }

  /** The values have a place in the tables: 16 bits for the DC difference, 15 for the others. */
  ghost predicate Indexed(b: Block, dc: int) {
    Category(Magnitude(b[0] - dc)) <= 16 && forall i | 1 <= i < 64 :: Category(Magnitude(b[i])) <= 15
  }

  // ------------------------------------------------------------------ decoding

  function Receive(s: seq<bool>, size: nat): Option<(int, seq<bool>)>
    requires size > 0
  {
    if |s| < size then None else Some((Extend(CodeValue(s[..size]), size), s[size..]))
  }

  /** The difference of the DC coefficient. */
  function DecodeDc(t: Tables, s: seq<bool>): Option<(int, seq<bool>)> {
    var symbol := Lookup(t.dc, s, 0);
    if symbol.None? then None
    else
      var rest := s[t.dc[symbol.value].size..];
      if symbol.value == 0 then Some((0, rest)) else Receive(rest, symbol.value)
  }

  /** The AC coefficients behind the `known` ones. */
  function DecodeAc(t: Tables, s: seq<bool>, known: seq<int>): (r: Option<(seq<int>, seq<bool>)>)
    ensures r.Some? && |known| <= 64 ==> |r.value.0| == 64
    decreases 64 - |known|
  {
    if |known| >= 64 then Some((known, s))
    else
      var symbol := Lookup(t.ac, s, 0);
      if symbol.None? then None
      else
        var rest, run, size := s[t.ac[symbol.value].size..], symbol.value / 16, symbol.value % 16;
        if symbol.value == 0 then Some((known + Zeros(64 - |known|), rest))
        else if size == 0 then
          if symbol.value != ZRL || |known| + 16 >= 64 then None else DecodeAc(t, rest, known + Zeros(16))
        else
          var v := Receive(rest, size);
          if v.None? || |known| + run >= 64 then None
          else DecodeAc(t, v.value.1, known + Zeros(run) + [v.value.0])
  }

  function DecodeBlock(t: Tables, s: seq<bool>, dc: int): (r: Option<(Block, seq<bool>)>) {
    var diff := DecodeDc(t, s);
    if diff.None? then None else DecodeAc(t, diff.value.1, [dc + diff.value.0])
  }

  // ---------------------------------------------------------------- round trip

  lemma ReadsExtra(v: int, rest: seq<bool>)
    requires v != 0
    ensures Receive(Extra(v).Bits() + rest, Extra(v).size) == Some((v, rest))
  {
    hide Extra;
    var c := Extra(v);
    var s := c.Bits() + rest;
    assert s[..c.size] == c.Bits() && s[c.size..] == rest;
    CodeValueOfCodeBits(c.value, c.size);
    ExtendExtra(v);
  }

  lemma ReadsDc(t: Tables, b: Block, dc: int, rest: seq<bool>)
    requires PrefixFree(t.dc) && Covers(t, b, dc)
    ensures DecodeDc(t, DcBits(t, b[0] - dc) + rest) == Some((b[0] - dc, rest))
  {
    hide PrefixFree, Lookup, Extra, Receive, Code.Bits;
    var diff := b[0] - dc;
    if diff == 0 {
      LookupFinds(t.dc, 0, rest, 0);
      assert (t.dc[0].Bits() + rest)[t.dc[0].size..] == rest;
    } else {
      var symbol, tail := Category(Magnitude(diff)), Extra(diff).Bits() + rest;
      assert DcBits(t, diff) + rest == t.dc[symbol].Bits() + tail;
      LookupFinds(t.dc, symbol, tail, 0);
      assert (t.dc[symbol].Bits() + tail)[t.dc[symbol].size..] == tail;
      ReadsExtra(diff, rest);
    }
  }

  lemma {:induction false} ReadsMarkers(t: Tables, n: nat, rest: seq<bool>, known: seq<int>)
    requires PrefixFree(t.ac) && Uses(t.ac, ZRL) && |known| + 16 * n < 64
    ensures DecodeAc(t, Markers(t, n) + rest, known) == DecodeAc(t, rest, known + Zeros(16 * n))
    decreases n
  {
    hide PrefixFree, Lookup, Code.Bits;
    if n == 0 {
      assert Markers(t, 0) + rest == rest && known + Zeros(0) == known;
    } else {
      var tail := Markers(t, n - 1) + rest;
      var s := t.ac[ZRL].Bits() + tail;
      assert Markers(t, n) + rest == s;
      LookupFinds(t.ac, ZRL, tail, 0);
      assert s[t.ac[ZRL].size..] == tail;
      ReadsMarkers(t, n - 1, rest, known + Zeros(16));
      assert known + Zeros(16) + Zeros(16 * (n - 1)) == known + Zeros(16 * n);
    }
  }

  /** One nonzero coefficient behind fewer than 16 zeros. */
  lemma ReadsCoefficient(t: Tables, run: nat, v: int, rest: seq<bool>, known: seq<int>)
    requires PrefixFree(t.ac) && run < 16 && v != 0 && Category(Magnitude(v)) <= 15 && Uses(t.ac, AcSymbol(run, v))
    requires |known| + run < 64
    ensures DecodeAc(t, SymbolBits(t.ac, AcSymbol(run, v)) + (Extra(v).Bits() + rest), known)
         == DecodeAc(t, rest, known + Zeros(run) + [v])
  {
    hide PrefixFree, Lookup, Code.Bits, Extra, Receive, Category;
    var symbol, tail := AcSymbol(run, v), Extra(v).Bits() + rest;
    LookupFinds(t.ac, symbol, tail, 0);
    assert (t.ac[symbol].Bits() + tail)[t.ac[symbol].size..] == tail;
    assert symbol / 16 == run && symbol % 16 == Category(Magnitude(v));
    ReadsExtra(v, rest);
  }

  lemma {:induction false} ReadsAc(t: Tables, b: Block, dc: int, i: nat, rest: seq<bool>)
    requires PrefixFree(t.ac) && Covers(t, b, dc) && 0 < i <= 64
    ensures DecodeAc(t, AcBits(t, b, i) + rest, b[..i]) == Some((b, rest))
    decreases 64 - i
  {
    hide PrefixFree, Covers, Lookup, Code.Bits, Extra, Receive, Category, AcSymbol, SymbolBits, DecodeAc, Markers;
    var n := RunAt(b, i);
    if i == 64 {
      assert [] + rest == rest && b[..64] == b;
      AllKnown(t, rest, b);
    } else if i + n == 64 {
      CoversEnds(t, b, dc);
      EndOfBlock(t, rest, b[..i]);
      assert b == b[..i] + b[i..i + n];
    } else {
      AcStep(t, b, dc, i, n, AcBits(t, b, i + n + 1), rest);
      ReadsAc(t, b, dc, i + n + 1, rest);
    }
  }

  lemma CoversEnds(t: Tables, b: Block, dc: int)
    requires Covers(t, b, dc)
    ensures Uses(t.ac, 0) && Uses(t.ac, ZRL)
  {
  }

  lemma CoversAt(t: Tables, b: Block, dc: int, i: nat, run: nat)
    requires Covers(t, b, dc) && 0 < i < 64 && b[i] != 0 && run < 16
    ensures Uses(t.ac, AcSymbol(run, b[i])) && Category(Magnitude(b[i])) <= 15
  {
    hide Category, AcSymbol, Uses;
  }

  /** A nonzero coefficient behind any number of zeros. */
  lemma AcStep(t: Tables, b: Block, dc: int, i: nat, n: nat, more: seq<bool>, rest: seq<bool>)
    requires PrefixFree(t.ac) && Covers(t, b, dc) && 0 < i && i + n < 64 && b[i + n] != 0 && b[i..i + n] == Zeros(n)
    ensures var v := b[i + n];
            DecodeAc(t, Markers(t, n / 16) + SymbolBits(t.ac, AcSymbol(n, v)) + Extra(v).Bits() + more + rest, b[..i])
            == DecodeAc(t, more + rest, b[..i + n + 1])
  {
    hide PrefixFree, Covers, Lookup, Code.Bits, Extra, Receive, Category, AcSymbol, SymbolBits, DecodeAc, Markers,
      Zeros;
    var v, m := b[i + n], n / 16;
    var coded := SymbolBits(t.ac, AcSymbol(n, v)) + (Extra(v).Bits() + (more + rest));
    assert Markers(t, m) + SymbolBits(t.ac, AcSymbol(n, v)) + Extra(v).Bits() + more + rest == Markers(t, m) + coded;
    SameSymbol(n, v);
    CoversEnds(t, b, dc);
    CoversAt(t, b, dc, i + n, n % 16);
    ReadsMarkers(t, m, coded, b[..i]);
    var known := b[..i] + Zeros(16 * m);
    LengthOfZeros(16 * m);
    ReadsCoefficient(t, n % 16, v, more + rest, known);
    JoinZeros(16 * m, n % 16);
    assert known + Zeros(n % 16) + [v] == b[..i] + (Zeros(16 * m) + Zeros(n % 16)) + [v];
    assert b[..i] + b[i..i + n] + [v] == b[..i + n + 1];
  }

  lemma LengthOfZeros(n: nat)
    ensures |Zeros(n)| == n
  {
  }

  lemma SameSymbol(n: nat, v: int)
    ensures AcSymbol(n, v) == AcSymbol(n % 16, v)
  {
  }

  lemma JoinZeros(a: nat, b: nat)
    ensures Zeros(a) + Zeros(b) == Zeros(a + b)
  {
  }

  lemma AllKnown(t: Tables, rest: seq<bool>, b: Block)
    ensures DecodeAc(t, rest, b) == Some((b, rest))
  {
  }

  lemma EndOfBlock(t: Tables, rest: seq<bool>, known: seq<int>)
    requires PrefixFree(t.ac) && Uses(t.ac, 0) && |known| < 64
    ensures DecodeAc(t, t.ac[0].Bits() + rest, known) == Some((known + Zeros(64 - |known|), rest))
  {
    hide PrefixFree, Lookup, Code.Bits;
    LookupFinds(t.ac, 0, rest, 0);
    assert (t.ac[0].Bits() + rest)[t.ac[0].size..] == rest;
  }

  /** A block read back: DC difference, zero runs, markers and end of block. */
  lemma ReadsBlock(t: Tables, b: Block, dc: int, rest: seq<bool>)
    requires PrefixFree(t.dc) && PrefixFree(t.ac) && Covers(t, b, dc)
    ensures DecodeBlock(t, BlockBits(t, b, dc) + rest, dc) == Some((b, rest))
  {
    hide PrefixFree, Covers, DcBits, AcBits, DecodeDc, DecodeAc;
    assert BlockBits(t, b, dc) + rest == DcBits(t, b[0] - dc) + (AcBits(t, b, 1) + rest);
    ReadsDc(t, b, dc, AcBits(t, b, 1) + rest);
    ReadsAc(t, b, dc, 1, rest);
    assert b[..1] == [b[0]];
  }

  // ------------------------------------------------------------------- scans

  /** A block with the number of its component: components have their own tables and their
    own DC predictor. */
  datatype Unit = Unit(component: nat, block: Block)

  /** The DC predictors behind some units. */
  function Predictor(units: seq<Unit>, component: nat): int {
    if units == [] then 0
    else
      var last := units[|units| - 1];
      if last.component == component then last.block[0] else Predictor(units[..|units| - 1], component)
  }

  /** The predictor is the DC coefficient of the last block of the component, or zero before
    the first. */
  lemma {:induction false} PredictorIsLast(units: seq<Unit>, component: nat)
    ensures (forall i | 0 <= i < |units| :: units[i].component != component) ==> Predictor(units, component) == 0
    ensures forall i | 0 <= i < |units| && units[i].component == component
              && (forall j | i < j < |units| :: units[j].component != component) ::
              Predictor(units, component) == units[i].block[0]
  {
    if units != [] && units[|units| - 1].component != component {
      PredictorIsLast(units[..|units| - 1], component);
    }
  }

  /** All codes of a scan, one after the other. */
  function ScanBits(t: nat -> Tables, units: seq<Unit>): seq<bool> {
    if units == [] then []
    else
      var front, last := units[..|units| - 1], units[|units| - 1];
      ScanBits(t, front) + BlockBits(t(last.component), last.block, Predictor(front, last.component))
  }

  /** The blocks of a scan whose units belong to `components`. */
  function DecodeScan(t: nat -> Tables, s: seq<bool>, components: seq<nat>): (r: Option<(seq<Unit>, seq<bool>)>)
    ensures r.Some? ==> |r.value.0| == |components|
  {
    if components == [] then Some(([], s))
    else
      var k := |components| - 1;
      var front := DecodeScan(t, s, components[..k]);
      if front.None? then None
      else
        var b := DecodeBlock(t(components[k]), front.value.1, Predictor(front.value.0, components[k]));
        if b.None? then None else Some((front.value.0 + [Unit(components[k], b.value.0)], b.value.1))
  }

  function Components(units: seq<Unit>): (c: seq<nat>)
    ensures |c| == |units|
  {
    seq(|units|, i requires 0 <= i < |units| => units[i].component)
  }

  /** Every block of the scan can be coded. */
  ghost predicate Codable(t: nat -> Tables, units: seq<Unit>) {
    forall i | 0 <= i < |units| ::
      var u := units[i];
      PrefixFree(t(u.component).dc) && PrefixFree(t(u.component).ac)
      && Covers(t(u.component), u.block, Predictor(units[..i], u.component))
  }

  /** Every value of the scan has a place in the tables. */
  ghost predicate ScanIndexed(units: seq<Unit>) {
    forall i | 0 <= i < |units| :: Indexed(units[i].block, Predictor(units[..i], units[i].component))
  }

  /** What can be coded has. */
  lemma CoversIndexed(t: Tables, b: Block, dc: int)
    requires Covers(t, b, dc)
    ensures Indexed(b, dc)
  {
    hide AcSymbol, Uses;
    assert Category(0) == 1;
    forall i | 1 <= i < 64 && b[i] != 0
      ensures Category(Magnitude(b[i])) <= 15
    {
      CoversAt(t, b, dc, i, 0);
    }
  }

  lemma CodableIsIndexed(t: nat -> Tables, units: seq<Unit>)
    requires Codable(t, units)
    ensures ScanIndexed(units)
  {
    hide PrefixFree, Covers, Indexed, Predictor;
    forall i | 0 <= i < |units|
      ensures Indexed(units[i].block, Predictor(units[..i], units[i].component))
    {
      CoversIndexed(t(units[i].component), units[i].block, Predictor(units[..i], units[i].component));
    }
  }

  lemma CodableParts(t: nat -> Tables, front: seq<Unit>, last: Unit)
    requires Codable(t, front + [last])
    ensures Codable(t, front) && PrefixFree(t(last.component).dc) && PrefixFree(t(last.component).ac)
    ensures Covers(t(last.component), last.block, Predictor(front, last.component))
  {
    hide PrefixFree, Covers, Predictor;
    var units := front + [last];
    assert units[..|front|] == front && units[|front|] == last;
    assert forall i | 0 <= i < |front| :: units[..i] == front[..i] && units[i] == front[i];
  }

  lemma ScanBitsPush(t: nat -> Tables, front: seq<Unit>, last: Unit)
    ensures ScanBits(t, front + [last])
         == ScanBits(t, front) + BlockBits(t(last.component), last.block, Predictor(front, last.component))
  {
    hide BlockBits, Predictor;
    assert (front + [last])[..|front|] == front;
  }

  lemma ScanOfNothing(t: nat -> Tables, rest: seq<bool>)
    ensures DecodeScan(t, ScanBits(t, []) + rest, Components([])) == Some(([], rest))
  {
    assert [] + rest == rest;
  }

  /** A scan read back, whatever follows it. */
  lemma {:induction false} ReadsScan(t: nat -> Tables, units: seq<Unit>, rest: seq<bool>)
    requires Codable(t, units)
    ensures DecodeScan(t, ScanBits(t, units) + rest, Components(units)) == Some((units, rest))
    decreases |units|
  {
    hide BlockBits, DecodeBlock, PrefixFree, Covers, Components, Codable, DecodeScan, ScanBits, Predictor;
    if units == [] {
      ScanOfNothing(t, rest);
    } else {
      var front, last := units[..|units| - 1], units[|units| - 1];
      assert units == front + [last];
      CodableParts(t, front, last);
      ScanBitsPush(t, front, last);
      var bits := BlockBits(t(last.component), last.block, Predictor(front, last.component));
      ReadsScan(t, front, bits + rest);
      assert ScanBits(t, units) + rest == ScanBits(t, front) + (bits + rest);
      ReadsBlock(t(last.component), last.block, Predictor(front, last.component), rest);
      ScanStep(t, ScanBits(t, units) + rest, front, last, bits + rest, rest);
    }
  }

  lemma ScanStep(t: nat -> Tables, s: seq<bool>, front: seq<Unit>, last: Unit, more: seq<bool>, rest: seq<bool>)
    requires DecodeScan(t, s, Components(front)) == Some((front, more))
    requires DecodeBlock(t(last.component), more, Predictor(front, last.component)) == Some((last.block, rest))
    ensures DecodeScan(t, s, Components(front + [last])) == Some((front + [last], rest))
  {
    hide DecodeBlock, Predictor;
    assert Components(front + [last])[..|front|] == Components(front);
  }
}
