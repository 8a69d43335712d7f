/** A reference decoder: stored and fixed-Huffman blocks of RFC 1951 (sections 3.2.4 to
  3.2.6) inside the wrapper of RFC 1950 (section 2.2).
 */
module Inflate {
  import opened Options
  import opened Bits

  // --------------------------------------------------------- fixed Huffman code

  /** The next literal or length symbol. */
  function ReadSymbol(s: seq<bool>): (r: Option<(nat, seq<bool>)>)
    ensures r.Some? ==> |r.value.1| < |s|
  {
    if |s| < 7 then None else
      var seven := CodeValue(s[..7]);
      if seven < 24 then Some((256 + seven, s[7..]))
      else if |s| < 8 then None else
        var eight := CodeValue(s[..8]);
        if 48 <= eight < 192 then Some((eight - 48, s[8..]))
        else if 192 <= eight < 200 then Some((eight + 88, s[8..]))
        else if |s| < 9 then None else
          var nine := CodeValue(s[..9]);
          if nine >= 400 then Some((nine - 256, s[9..])) else None
  }

  // Lengths 3..258 and distances 1..32768 as a base and a number of extra bits.

  function LengthExtra(k: nat): nat { if k < 8 || k >= 28 then 0 else k / 4 - 1 }

  function LengthBase(k: nat): nat {
    if k >= 28 then 258 else if k < 8 then k + 3 else (4 + k % 4) * Pow2(k / 4 - 1) + 3
  }

  function DistanceExtra(k: nat): nat { if k < 4 then 0 else k / 2 - 1 }

  function DistanceBase(k: nat): nat {
    if k < 4 then k + 1 else (2 + k % 2) * Pow2(k / 2 - 1) + 1
  }

  function ReadExtra(s: seq<bool>, base: nat, n: nat): (r: Option<(nat, seq<bool>)>)
    ensures r.Some? ==> |r.value.1| <= |s| && r.value.0 >= base
  {
    if |s| < n then None else Some((base + LowValue(s[..n]), s[n..]))
  }

  function ReadDistance(s: seq<bool>): (r: Option<(nat, seq<bool>)>)
    ensures r.Some? ==> |r.value.1| < |s| && r.value.0 > 0
  {
    if |s| < 5 then None else
      var k := CodeValue(s[..5]);
      if k >= 30 then None else ReadExtra(s[5..], DistanceBase(k), DistanceExtra(k))
  }

  /** Copy `len` bytes from `dist` back, one at a time: the copy may overlap itself. */
  function Copy(out: seq<Byte>, len: nat, dist: nat): (r: seq<Byte>)
    requires 0 < dist <= |out|
    ensures |r| == |out| + len && r[..|out|] == out
    decreases len
  {
    if len == 0 then out else Copy(out + [out[|out| - dist]], len - 1, dist)
  }

  /** The body of a fixed-Huffman block after `out` has been decoded: the output at the end
    of the block and the bits behind it. */
  function InflateFixed(s: seq<bool>, out: seq<Byte>): (r: Option<(seq<Byte>, seq<bool>)>)
    ensures r.Some? ==> |r.value.1| < |s|
    decreases |s|
  {
    var symbol := ReadSymbol(s);
    if symbol.None? then None
    else if symbol.value.0 < 256 then InflateFixed(symbol.value.1, out + [symbol.value.0])
    else if symbol.value.0 == 256 then Some((out, symbol.value.1))
    else if symbol.value.0 > 285 then None
    else
      var k := symbol.value.0 - 257;
      var len := ReadExtra(symbol.value.1, LengthBase(k), LengthExtra(k));
      if len.None? then None else
        var dist := ReadDistance(len.value.1);
        if dist.None? || dist.value.0 > |out| then None
        else InflateFixed(dist.value.1, Copy(out, len.value.0, dist.value.0))
  }

  // ------------------------------------------------------------- stored blocks

  /** Skip to the next byte boundary.  The whole string is made of bytes, so what is left
    behind the boundary is too. */
  function Aligned(s: seq<bool>): (r: seq<Byte>)
    ensures |r| == |s| / 8
  {
    Bytes(s[|s| % 8..])
  }

  function Pair(low: nat, high: nat): nat { low + 256 * high }

  function InflateStored(s: seq<bool>, out: seq<Byte>): (r: Option<(seq<Byte>, seq<bool>)>)
    ensures r.Some? ==> |r.value.1| <= |s|
  {
    var b := Aligned(s);
    if |b| < 4 then None else
      var len := Pair(b[0], b[1]);
      if Pair(b[2], b[3]) != 0xffff - len || |b| < 4 + len then None
      else Some((out + b[4..4 + len], Flat(b[4 + len..])))
  }

  // ------------------------------------------------------------ blocks, wrapper

  /** All blocks up to the final one. */
  function Blocks(s: seq<bool>, out: seq<Byte>): (r: Option<(seq<Byte>, seq<bool>)>)
    decreases |s|
  {
    if |s| < 3 then None else
      var final := s[0];
      var block := if s[1] && !s[2] then InflateFixed(s[3..], out)
                   else if !s[1] && !s[2] then InflateStored(s[3..], out)
                   else None;
      if block.None? || final then block else Blocks(block.value.1, block.value.0)
  }

  const BASE := 65521

  /** The two sums of the checksum, each reduced after every byte. */
  function Sums(data: seq<Byte>): (r: (nat, nat))
    ensures r.0 < BASE && r.1 < BASE
  {
    if data == [] then (1, 0) else
      var (s1, s2) := Sums(data[..|data| - 1]);
      var t := (s1 + data[|data| - 1]) % BASE;
      (t, (s2 + t) % BASE)
  }

  function Checksum(data: seq<Byte>): nat {
    65536 * Sums(data).1 + Sums(data).0
  }

  /** A zlib string: two header bytes with a check, blocks, and the checksum, high byte first. */
  function Unzlib(z: seq<Byte>): Option<seq<Byte>> {
    if |z| < 2 || z[0] % 16 != 8 || z[0] / 16 > 7 || Pair(z[1], z[0]) % 31 != 0 || z[1] / 32 % 2 != 0 then None
    else
      var r := Blocks(Flat(z[2..]), []);
      if r.None? then None else
        var b := Aligned(r.value.1);
        if |b| == 4 && 65536 * Pair(b[1], b[0]) + Pair(b[3], b[2]) == Checksum(r.value.0)
        then Some(r.value.0)
        else None
  }
}
