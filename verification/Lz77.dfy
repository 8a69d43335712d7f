/** What the encoder writes, token by token, and why the reference decoder reads it back. */
module Lz77 {
  import opened Options
  import opened Bits
  import opened Inflate

  datatype Token = Literal(b: Byte) | Match(len: nat, dist: nat)

  /** A token that may follow `n` bytes of output. */
  ghost predicate Fits(t: Token, n: nat) {
    t.Match? ==> 3 <= t.len <= 258 && 1 <= t.dist <= 32767 && t.dist <= n
  }

  function Size(t: Token): nat { match t case Literal(_) => 1 case Match(len, _) => len }

  function Expand(out: seq<Byte>, t: Token): (r: seq<Byte>)
    requires Fits(t, |out|)
    ensures |r| == |out| + Size(t) > |out|
  {
    match t
    case Literal(b) => out + [b]
    case Match(len, dist) => Copy(out, len, dist)
  }

  const LENGTHC: seq<nat> :=
    [3, 4, 5, 6, 7, 8, 9, 10, 11, 13, 15, 17, 19, 23, 27, 31, 35, 43, 51, 59, 67, 83, 99, 115, 131,
     163, 195, 227, 258, 259]
  const LENGTHEB: seq<nat> :=
    [0, 0, 0, 0, 0, 0, 0, 0, 1, 1, 1, 1, 2, 2, 2, 2, 3, 3, 3, 3, 4, 4, 4, 4, 5, 5, 5, 5, 0]
  const DISTC: seq<nat> :=
    [1, 2, 3, 4, 5, 7, 9, 13, 17, 25, 33, 49, 65, 97, 129, 193, 257, 385, 513, 769, 1025, 1537, 2049, 3073, 4097, 6145,
     8193, 12289, 16385, 24577, 32768]
  const DISTEB: seq<nat> :=
    [0, 0, 0, 0, 1, 1, 2, 2, 3, 3, 4, 4, 5, 5, 6, 6, 7, 7, 8, 8, 9, 9, 10, 10, 11, 11, 12, 12, 13, 13]

  lemma TableEnds()
    ensures |LENGTHC| == 30 && LENGTHC[0] == 3 && LENGTHC[29] == 259
    ensures |DISTC| == 31 && DISTC[0] == 1 && DISTC[30] == 32768
  {
  }

  /** Two neighbouring entries of a table that `x` lies between. */
  ghost predicate Between(table: seq<nat>, x: nat, k: nat) {
    k + 1 < |table| && table[k] <= x < table[k + 1]
  }

  function SymbolBits(n: nat): seq<bool>
    requires n < 288
  {
    if n <= 143 then CodeBits(0x30 + n, 8)
    else if n <= 255 then CodeBits(0x190 + n - 144, 9)
    else if n <= 279 then CodeBits(n - 256, 7)
    else CodeBits(0xc0 + n - 280, 8)
  }

  function MatchBits(len: nat, dist: nat, k: nat, d: nat): seq<bool>
    requires Between(LENGTHC, len, k) && Between(DISTC, dist, d)
  {
    SymbolBits(257 + k) + LowBits(len - LENGTHC[k], LENGTHEB[k]) + CodeBits(d, 5) + LowBits(dist - DISTC[d], DISTEB[d])
  }

  /** `s` is what the format allows for token `t`. */
  ghost predicate Codes(s: seq<bool>, t: Token) {
    match t
    case Literal(b) => s == SymbolBits(b)
    case Match(len, dist) =>
      exists k, d | Between(LENGTHC, len, k) && Between(DISTC, dist, d) :: s == MatchBits(len, dist, k, d)
  }

  // ------------------------------------------------------------- reading back

  lemma ReadsCode(v: nat, n: nat, rest: seq<bool>)
    requires v < Pow2(n)
    ensures (CodeBits(v, n) + rest)[..n] == CodeBits(v, n) && (CodeBits(v, n) + rest)[n..] == rest
    ensures CodeValue((CodeBits(v, n) + rest)[..n]) == v
    ensures n > 0 ==> CodeValue((CodeBits(v, n) + rest)[..n - 1]) == v / 2
    ensures n > 1 ==> CodeValue((CodeBits(v, n) + rest)[..n - 2]) == v / 4
  {
    hide CodeValue;
    var s := CodeBits(v, n) + rest;
    assert s[..n] == CodeBits(v, n);
    CodeValueOfCodeBits(v, n);
    if n > 0 {
      assert s[..n - 1] == CodeBits(v / 2, n - 1);
      CodeValueOfCodeBits(v / 2, n - 1);
      if n > 1 {
        assert s[..n - 2] == CodeBits(v / 4, n - 2);
        CodeValueOfCodeBits(v / 4, n - 2);
      }
    }
  }

  lemma ReadsSymbol(n: nat, rest: seq<bool>)
    requires n < 288
    ensures ReadSymbol(SymbolBits(n) + rest) == Some((n, rest))
  {
    assert Pow2(7) == 128 && Pow2(8) == 256 && Pow2(9) == 512;
    hide CodeValue, CodeBits, Pow2;
    if n <= 143 { ReadsCode(0x30 + n, 8, rest); }
    else if n <= 255 { ReadsCode(0x190 + n - 144, 9, rest); }
    else if n <= 279 { ReadsCode(n - 256, 7, rest); }
    else { ReadsCode(0xc0 + n - 280, 8, rest); }
  }

  lemma ReadsExtra(base: nat, v: nat, n: nat, rest: seq<bool>)
    requires v < Pow2(n)
    ensures ReadExtra(LowBits(v, n) + rest, base, n) == Some((base + v, rest))
  {
    var s := LowBits(v, n) + rest;
    assert s[..n] == LowBits(v, n) && s[n..] == rest;
    LowValueOfLowBits(v, n);
  }

  lemma PowerTable(e: nat)
    requires e <= 13
    ensures Pow2(e) == [1, 2, 4, 8, 16, 32, 64, 128, 256, 512, 1024, 2048, 4096, 8192][e]
  {
    if e > 0 { PowerTable(e - 1); }
  }

  // The encoder's tables are the format's, and every value between two entries fits the
  // extra bits of the first.

  lemma LengthEntry(k: nat)
    requires k < 29
    ensures LENGTHC[k] == LengthBase(k) && LENGTHEB[k] == LengthExtra(k)
  {
    hide Pow2;
    PowerTable(if k < 8 || k == 28 then 0 else k / 4 - 1);
  }

  lemma LengthGap(k: nat)
    requires k < 29
    ensures LENGTHC[k + 1] <= LENGTHC[k] + Pow2(LENGTHEB[k])
  {
    hide Pow2;
    PowerTable(LENGTHEB[k]);
  }

  lemma DistanceEntry(d: nat)
    requires d < 30
    ensures DISTC[d] == DistanceBase(d) && DISTEB[d] == DistanceExtra(d)
  {
    hide Pow2;
    PowerTable(if d < 4 then 0 else d / 2 - 1);
  }

  lemma DistanceGap(d: nat)
    requires d < 30
    ensures DISTC[d + 1] <= DISTC[d] + Pow2(DISTEB[d])
  {
    hide Pow2;
    PowerTable(DISTEB[d]);
  }

  lemma LengthTable(len: nat, k: nat)
    requires Between(LENGTHC, len, k)
    ensures k < 29 && k < |LENGTHEB| && LENGTHC[k] == LengthBase(k) && LENGTHEB[k] == LengthExtra(k)
    ensures len - LENGTHC[k] < Pow2(LENGTHEB[k]) && LENGTHEB[k] <= 5
  {
    hide Pow2, LengthBase, LengthExtra;
    LengthEntry(k);
    LengthGap(k);
  }

  lemma DistanceTable(dist: nat, d: nat)
    requires Between(DISTC, dist, d)
    ensures d < 30 && d < |DISTEB| && DISTC[d] == DistanceBase(d) && DISTEB[d] == DistanceExtra(d)
    ensures dist - DISTC[d] < Pow2(DISTEB[d]) && DISTEB[d] <= 13
  {
    hide Pow2, DistanceBase, DistanceExtra;
    DistanceEntry(d);
    DistanceGap(d);
  }

  lemma ReadsDistance(dist: nat, d: nat, rest: seq<bool>)
    requires Between(DISTC, dist, d) && d < |DISTEB|
    ensures ReadDistance(CodeBits(d, 5) + (LowBits(dist - DISTC[d], DISTEB[d]) + rest)) == Some((dist, rest))
  {
    hide CodeValue, CodeBits, LowBits, DistanceBase, DistanceExtra, ReadExtra, DISTC, DISTEB;
    DistanceTable(dist, d);
    assert Pow2(5) == 32;
    ReadsCode(d, 5, LowBits(dist - DISTC[d], DISTEB[d]) + rest);
    ReadsExtra(DISTC[d], dist - DISTC[d], DISTEB[d], rest);
  }

  lemma ReadsMatch(len: nat, dist: nat, k: nat, d: nat, rest: seq<bool>, out: seq<Byte>)
    requires Between(LENGTHC, len, k) && Between(DISTC, dist, d) && 0 < dist <= |out|
    ensures InflateFixed(MatchBits(len, dist, k, d) + rest, out) == InflateFixed(rest, Copy(out, len, dist))
  {
    hide SymbolBits, ReadSymbol, ReadDistance, ReadExtra, LowBits, CodeBits, LengthBase, LengthExtra, LENGTHC,
      LENGTHEB, DISTC, DISTEB, Copy, Pow2;
    LengthTable(len, k);
    DistanceTable(dist, d);
    var tail := CodeBits(d, 5) + (LowBits(dist - DISTC[d], DISTEB[d]) + rest);
    var extra := LowBits(len - LENGTHC[k], LENGTHEB[k]) + tail;
    assert MatchBits(len, dist, k, d) + rest == SymbolBits(257 + k) + extra;
    ReadsSymbol(257 + k, extra);
    ReadsExtra(LENGTHC[k], len - LENGTHC[k], LENGTHEB[k], tail);
    ReadsDistance(dist, d, rest);
  }

  /** One token read back. */
  lemma ReadsToken(s: seq<bool>, t: Token, rest: seq<bool>, out: seq<Byte>)
    requires Fits(t, |out|) && Codes(s, t)
    ensures InflateFixed(s + rest, out) == InflateFixed(rest, Expand(out, t))
  {
    hide SymbolBits, ReadSymbol, MatchBits, LENGTHC, LENGTHEB, DISTC, DISTEB, Copy;
    match t {
      case Literal(b) => ReadsSymbol(b, rest);
      case Match(len, dist) =>
        var k, d :| Between(LENGTHC, len, k) && Between(DISTC, dist, d) && s == MatchBits(len, dist, k, d);
        ReadsMatch(len, dist, k, d, rest, out);
    }
  }

  // ------------------------------------------------------------- whole blocks

  /** `s` writes the tokens one after the other, each fits the bytes before it, and together
    they stand for `data`. */
  ghost predicate Encodes(s: seq<bool>, tokens: seq<Token>, data: seq<Byte>)
    decreases |tokens|
  {
    if tokens == [] then s == [] && data == []
    else
      exists m: nat, n: nat | m <= |s| && n < |data| ::
        var front, last := tokens[..|tokens| - 1], tokens[|tokens| - 1];
        Encodes(s[..m], front, data[..n]) && Codes(s[m..], last) && Fits(last, n) && Expand(data[..n], last) == data
  }

  lemma EncodesPush(s: seq<bool>, tokens: seq<Token>, data: seq<Byte>, more: seq<bool>, t: Token)
    requires Encodes(s, tokens, data) && Codes(more, t) && Fits(t, |data|)
    ensures Encodes(s + more, tokens + [t], Expand(data, t))
  {
    hide Codes;
    var next, all := Expand(data, t), s + more;
    ExpandKeeps(data, t);
    assert (tokens + [t])[..|tokens|] == tokens && all[..|s|] == s && all[|s|..] == more && next[..|data|] == data;
  }

  lemma EncodesNothing()
    ensures Encodes([], [], [])
  {
  }

  lemma ExpandKeeps(out: seq<Byte>, t: Token)
    requires Fits(t, |out|)
    ensures Expand(out, t)[..|out|] == out
  {
  }

  /** Every match in a block has length 3..258 and distance 1..32767, and the token sizes add
    up to the data. */
  lemma {:induction false} TokensInRange(s: seq<bool>, tokens: seq<Token>, data: seq<Byte>)
    requires Encodes(s, tokens, data)
    ensures forall t | t in tokens && t.Match? :: 3 <= t.len <= 258 && 1 <= t.dist <= 32767
    ensures |data| == Sizes(tokens)
    decreases |tokens|
  {
    hide Codes, Expand;
    if tokens != [] {
      var k := |tokens| - 1;
      var m: nat, n: nat :| m <= |s| && n < |data|
        && Encodes(s[..m], tokens[..k], data[..n]) && Codes(s[m..], tokens[k])
        && Fits(tokens[k], n) && Expand(data[..n], tokens[k]) == data;
      TokensInRange(s[..m], tokens[..k], data[..n]);
      assert tokens == tokens[..k] + [tokens[k]];
    }
  }

  function Sizes(tokens: seq<Token>): nat {
    if tokens == [] then 0 else Sizes(tokens[..|tokens| - 1]) + Size(tokens[|tokens| - 1])
  }

  lemma {:induction false} InflatesTokens(s: seq<bool>, tokens: seq<Token>, data: seq<Byte>, rest: seq<bool>)
    requires Encodes(s, tokens, data)
    ensures InflateFixed(s + rest, []) == InflateFixed(rest, data)
    decreases |tokens|
  {
    hide Codes, InflateFixed, Expand;
    if tokens == [] {
      assert s + rest == rest;
    } else {
      var k := |tokens| - 1;
      var m: nat, n: nat :| m <= |s| && n < |data|
        && Encodes(s[..m], tokens[..k], data[..n]) && Codes(s[m..], tokens[k])
        && Fits(tokens[k], n) && Expand(data[..n], tokens[k]) == data;
      assert s + rest == s[..m] + (s[m..] + rest);
      InflatesTokens(s[..m], tokens[..k], data[..n], s[m..] + rest);
      ReadsToken(s[m..], tokens[k], rest, data[..n]);
    }
  }

  lemma EndsBlock(rest: seq<bool>, data: seq<Byte>)
    ensures InflateFixed(SymbolBits(256) + rest, data) == Some((data, rest))
  {
    ReadsSymbol(256, rest);
    hide SymbolBits, ReadSymbol;
  }

  /** A final fixed-Huffman block of tokens stands for the data it was made from. */
  lemma InflatesBlock(s: seq<bool>, tokens: seq<Token>, data: seq<Byte>, rest: seq<bool>)
    requires Encodes(s, tokens, data)
    ensures Blocks([true, true, false] + (s + (SymbolBits(256) + rest)), []) == Some((data, rest))
  {
    hide InflateFixed, SymbolBits, Encodes;
    var body := s + (SymbolBits(256) + rest);
    assert ([true, true, false] + body)[3..] == body;
    InflatesTokens(s, tokens, data, SymbolBits(256) + rest);
    EndsBlock(rest, data);
  }

  // ------------------------------------------------------------ stored blocks

  /** The stored form of `data`: blocks of at most 32767 bytes, none for no data. */
  function StoredBlocks(data: seq<Byte>): seq<Byte> {
    if data == [] then []
    else
      var n := if |data| > 32767 then 32767 else |data|;
      StoredBlock(data[..n], n == |data|) + StoredBlocks(data[n..])
  }

  function StoredBlock(part: seq<Byte>, final: bool): seq<Byte>
    requires |part| <= 32767
  {
    [if final then 1 else 0, |part| % 256, |part| / 256, 255 - |part| % 256, 255 - |part| / 256] + part
  }

  lemma StoredSize(data: seq<Byte>)
    ensures |StoredBlocks(data)| == |data| + 5 * ((|data| + 32766) / 32767)
  {
  }

  lemma FinalBits(final: bool)
    ensures LowBits(if final then 1 else 0, 8) == [final, false, false, false, false, false, false, false]
  {
  }

  lemma InflatesStored(part: seq<Byte>, final: bool, tail: seq<Byte>, out: seq<Byte>)
    requires |part| <= 32767
    ensures var s := Flat(StoredBlock(part, final) + tail);
            |s| >= 3 && s[0] == final && !s[1] && !s[2] && InflateStored(s[3..], out) == Some((out + part, Flat(tail)))
  {
    hide LowBits, Flat, Bytes;
    var b := StoredBlock(part, final) + tail;
    var s := Flat(b);
    assert b == [b[0]] + b[1..];
    FlatCons(b[0], b[1..]);
    FinalBits(final);
    assert s[3..][5..] == Flat(b[1..]);
    BytesOfFlat(b[1..]);
    assert b[1..][4..4 + |part|] == part && b[1..][4 + |part|..] == tail;
  }

  lemma {:induction false} InflatesStoredBlocks(data: seq<Byte>, tail: seq<Byte>, out: seq<Byte>)
    requires data != []
    ensures Blocks(Flat(StoredBlocks(data) + tail), out) == Some((out + data, Flat(tail)))
    decreases |data|
  {
    hide StoredBlock, InflateStored, Flat;
    var n := if |data| > 32767 then 32767 else |data|;
    var after := StoredBlocks(data[n..]) + tail;
    assert StoredBlocks(data) + tail == StoredBlock(data[..n], n == |data|) + after;
    InflatesStored(data[..n], n == |data|, after, out);
    if n == |data| {
      assert after == tail && data[..n] == data;
    } else {
      InflatesStoredBlocks(data[n..], tail, out + data[..n]);
      assert out + data[..n] + data[n..] == out + data;
    }
  }
}
