/** Run-length packets of the TGA and Radiance writers, and decoders for both. */
module RunLength {
  import opened Options
  import opened Bits

  /** A packet: items as they are, or one item repeated. */
  datatype Packet<T> = Raw(items: seq<T>) | Repeat(item: T, n: nat)

  function Copies<T>(item: T, n: nat): (s: seq<T>)
    ensures |s| == n
  {
    seq(n, _ => item)
  }

  function Expand<T>(p: Packet<T>): seq<T> {
    match p
    case Raw(items) => items
    case Repeat(item, n) => Copies(item, n)
  }

  function ExpandAll<T>(packets: seq<Packet<T>>): seq<T> {
    if packets == [] then [] else ExpandAll(packets[..|packets| - 1]) + Expand(packets[|packets| - 1])
  }

  lemma ExpandPush<T>(packets: seq<Packet<T>>, p: Packet<T>)
    ensures ExpandAll(packets + [p]) == ExpandAll(packets) + Expand(p)
  {
    assert (packets + [p])[..|packets|] == packets;
  }

  // -------------------------------------------------------------- TGA pixels

  /** One to four bytes: grey, grey and alpha, colour, colour and alpha. */
  type Pixel = d: seq<Byte> | 1 <= |d| <= 4 witness [0]

  /** The order in which a pixel's bytes are written: blue, green, red, then alpha. */
  function PixelBytes(d: Pixel): (s: seq<Byte>)
    ensures |s| == |d|
  {
    if |d| <= 2 then d else [d[2], d[1], d[0]] + d[3..]
  }

  /** The pixel that a reader makes of the bytes of a file: grey, grey and alpha, or blue, green
    and red with or without alpha. */
  function FilePixel(s: seq<Byte>): (d: Pixel)
    requires 1 <= |s| <= 4
    ensures |d| == |s|
  {
    if |s| == 1 then [s[0]]
    else if |s| == 2 then [s[0], s[1]]
    else
      var blue, green, red := s[0], s[1], s[2];
      if |s| == 3 then [red, green, blue] else [red, green, blue, s[3]]
  }

  lemma ReadsPixel(d: Pixel)
    ensures FilePixel(PixelBytes(d)) == d
  {
  }

  function PixelsBytes(row: seq<Pixel>): seq<Byte> {
    if row == [] then [] else PixelsBytes(row[..|row| - 1]) + PixelBytes(row[|row| - 1])
  }

  ghost predicate Uniform(row: seq<Pixel>, comp: nat) { forall i | 0 <= i < |row| :: |row[i]| == comp }

  /** A TGA packet holds 1 to 128 pixels. */
  ghost predicate TgaPacket(p: Packet<Pixel>, comp: nat) {
    match p
    case Raw(items) => 1 <= |items| <= 128 && Uniform(items, comp)
    case Repeat(item, n) => 1 <= n <= 128 && |item| == comp
  }

  function TgaBytes(p: Packet<Pixel>): seq<Byte> {
    match p
    case Raw(items) => [(|items| - 1) % 256] + PixelsBytes(items)
    case Repeat(item, n) => [(n - 129) % 256] + PixelBytes(item)
  }

  function TgaAll(packets: seq<Packet<Pixel>>): seq<Byte> {
    if packets == [] then [] else TgaAll(packets[..|packets| - 1]) + TgaBytes(packets[|packets| - 1])
  }

  /** `n` pixels as they are. */
  function ReadPixels(s: seq<Byte>, comp: nat, n: nat): (row: seq<Pixel>)
    requires 1 <= comp <= 4 && |s| >= comp * n
    ensures |row| == n
  {
    if n == 0 then []
    else
      assert comp * n == comp + comp * (n - 1);
      [FilePixel(s[..comp])] + ReadPixels(s[comp..], comp, n - 1)
  }

  /** The pixels of the next packet. */
  function NextTga(s: seq<Byte>, comp: nat): (r: Option<(seq<Pixel>, seq<Byte>)>)
    requires 1 <= comp <= 4
    ensures r.Some? ==> r.value.0 != [] && |r.value.1| < |s|
  {
    if s == [] then None
    else
      var n := s[0] % 128 + 1;
      if s[0] < 128 then
        if |s| < 1 + comp * n then None else Some((ReadPixels(s[1..], comp, n), s[1..][comp * n..]))
      else if |s| < 1 + comp then None
      else Some((Copies<Pixel>(FilePixel(s[1..1 + comp]), n), s[1 + comp..]))
  }

  /** The rest of a row of `x` pixels of which `known` are there.  A packet that goes beyond the
    row is an error. */
  function DecodeTga(s: seq<Byte>, comp: nat, x: nat, known: seq<Pixel>): Option<(seq<Pixel>, seq<Byte>)>
    requires 1 <= comp <= 4
    decreases |s|
  {
    if |known| >= x then Some((known, s))
    else
      var next := NextTga(s, comp);
      if next.None? || |known| + |next.value.0| > x then None
      else DecodeTga(next.value.1, comp, x, known + next.value.0)
  }

  lemma {:induction false} PixelsLength(row: seq<Pixel>, comp: nat)
    requires Uniform(row, comp)
    ensures |PixelsBytes(row)| == comp * |row|
  {
    hide PixelBytes;
    if row != [] {
      PixelsLength(row[..|row| - 1], comp);
      assert comp * |row| == comp * (|row| - 1) + comp;
    }
  }

  lemma {:induction false} PixelsCons(d: Pixel, row: seq<Pixel>)
    ensures PixelsBytes([d] + row) == PixelBytes(d) + PixelsBytes(row)
    decreases |row|
  {
    hide PixelBytes;
    var s := [d] + row;
    if row == [] {
      assert s[..0] == [] && s == [d];
      assert PixelsBytes(s) == PixelsBytes([]) + PixelBytes(d);
    } else {
      PixelsCons(d, row[..|row| - 1]);
      assert s[..|s| - 1] == [d] + row[..|row| - 1];
    }
  }

  lemma {:induction false} ReadsPixels(row: seq<Pixel>, comp: nat, rest: seq<Byte>)
    requires 1 <= comp <= 4 && Uniform(row, comp)
    ensures |PixelsBytes(row)| == comp * |row|
    ensures ReadPixels(PixelsBytes(row) + rest, comp, |row|) == row
    decreases |row|
  {
    hide PixelBytes, FilePixel;
    PixelsLength(row, comp);
    if row != [] {
      var d, more := row[0], row[1..];
      assert row == [d] + more;
      PixelsCons(d, more);
      PixelsLength(more, comp);
      var s := PixelsBytes(row) + rest;
      assert s[..comp] == PixelBytes(d) && s[comp..] == PixelsBytes(more) + rest;
      ReadsPixel(d);
      ReadsPixels(more, comp, rest);
    }
  }

  lemma ReadsRaw(items: seq<Pixel>, comp: nat, rest: seq<Byte>)
    requires 1 <= comp <= 4 && TgaPacket(Raw(items), comp)
    ensures NextTga(TgaBytes(Raw(items)) + rest, comp) == Some((items, rest))
  {
    hide PixelBytes, PixelsBytes, ReadPixels, FilePixel;
    var s, n := TgaBytes(Raw(items)) + rest, |items|;
    ReadsPixels(items, comp, rest);
    assert s[0] == n - 1 && s[1..] == PixelsBytes(items) + rest;
  }

  lemma ReadsRepeat(item: Pixel, n: nat, comp: nat, rest: seq<Byte>)
    requires 1 <= comp <= 4 && TgaPacket(Repeat(item, n), comp)
    ensures NextTga(TgaBytes(Repeat(item, n)) + rest, comp) == Some((Copies(item, n), rest))
  {
    hide PixelBytes, ReadPixels, Copies, FilePixel;
    var s := TgaBytes(Repeat(item, n)) + rest;
    assert s[0] == n + 127;
    assert s[1..1 + comp] == PixelBytes(item) && s[1 + comp..] == rest;
    ReadsPixel(item);
  }

  /** One packet read back. */
  lemma ReadsTga(p: Packet<Pixel>, comp: nat, x: nat, known: seq<Pixel>, rest: seq<Byte>)
    requires 1 <= comp <= 4 && TgaPacket(p, comp) && |known| + |Expand(p)| <= x
    ensures DecodeTga(TgaBytes(p) + rest, comp, x, known) == DecodeTga(rest, comp, x, known + Expand(p))
  {
    hide NextTga, TgaBytes, Copies;
    match p
    case Raw(items) => ReadsRaw(items, comp, rest);
    case Repeat(item, n) => ReadsRepeat(item, n, comp, rest);
  }

  /** The packets of a row: each holds 1 to 128 pixels, and together they are the row. */
  ghost predicate TgaRow(packets: seq<Packet<Pixel>>, comp: nat, row: seq<Pixel>) {
    ExpandAll(packets) == row && forall i | 0 <= i < |packets| :: TgaPacket(packets[i], comp)
  }

  lemma {:induction false} ReadsTgaAll(packets: seq<Packet<Pixel>>, comp: nat, x: nat, rest: seq<Byte>)
    requires 1 <= comp <= 4 && TgaRow(packets, comp, ExpandAll(packets)) && |ExpandAll(packets)| <= x
    ensures DecodeTga(TgaAll(packets) + rest, comp, x, []) == DecodeTga(rest, comp, x, ExpandAll(packets))
    decreases |packets|
  {
    hide DecodeTga, TgaPacket, TgaBytes, Expand;
    if packets == [] {
      assert [] + rest == rest;
    } else {
      var front, last := packets[..|packets| - 1], packets[|packets| - 1];
      assert forall i | 0 <= i < |front| :: front[i] == packets[i];
      assert TgaAll(packets) + rest == TgaAll(front) + (TgaBytes(last) + rest);
      ReadsTgaAll(front, comp, x, TgaBytes(last) + rest);
      ReadsTga(last, comp, x, ExpandAll(front), rest);
    }
  }

  /** A row read back, whatever follows it. */
  lemma TgaRoundTrip(packets: seq<Packet<Pixel>>, comp: nat, row: seq<Pixel>, rest: seq<Byte>)
    requires 1 <= comp <= 4 && TgaRow(packets, comp, row)
    ensures DecodeTga(TgaAll(packets) + rest, comp, |row|, []) == Some((row, rest))
  {
    hide TgaAll, ExpandAll, TgaPacket;
    ReadsTgaAll(packets, comp, |row|, rest);
  }

  // -------------------------------------------------------------- HDR components

  /** A component packet: at most 128 bytes as they are, or at most 127 times one byte. */
  ghost predicate HdrPacket(p: Packet<Byte>) {
    match p
    case Raw(items) => 1 <= |items| <= 128
    case Repeat(_, n) => 1 <= n <= 127
  }

  function HdrBytes(p: Packet<Byte>): seq<Byte> {
    match p
    case Raw(items) => [|items| % 256] + items
    case Repeat(item, n) => [(n + 128) % 256, item]
  }

  function HdrAll(packets: seq<Packet<Byte>>): seq<Byte> {
    if packets == [] then [] else HdrAll(packets[..|packets| - 1]) + HdrBytes(packets[|packets| - 1])
  }

  /** The bytes of the next packet. */
  function NextHdr(s: seq<Byte>): (r: Option<(seq<Byte>, seq<Byte>)>)
    ensures r.Some? ==> r.value.0 != [] && |r.value.1| < |s|
  {
    if |s| < 2 || s[0] == 0 then None
    else if s[0] > 128 then Some((Copies(s[1], s[0] - 128), s[2..]))
    else
      var n: nat := s[0];
      if |s| < 1 + n then None else Some((s[1..][..n], s[1..][n..]))
  }

  /** The rest of a component of `width` bytes of which `known` are there. */
  function DecodeHdr(s: seq<Byte>, width: nat, known: seq<Byte>): Option<(seq<Byte>, seq<Byte>)>
    decreases |s|
  {
    if |known| >= width then Some((known, s))
    else
      var next := NextHdr(s);
      if next.None? || |known| + |next.value.0| > width then None
      else DecodeHdr(next.value.1, width, known + next.value.0)
  }

  lemma NextIsRaw(items: seq<Byte>, rest: seq<Byte>)
    requires 1 <= |items| <= 128
    ensures NextHdr(HdrBytes(Raw(items)) + rest) == Some((items, rest))
  {
    hide Copies;
    var s := HdrBytes(Raw(items)) + rest;
    assert s[0] == |items| && s[1..] == items + rest;
    assert s[1..][..|items|] == items && s[1..][|items|..] == rest;
  }

  lemma NextIsRun(item: Byte, n: nat, rest: seq<Byte>)
    requires 1 <= n <= 127
    ensures NextHdr(HdrBytes(Repeat(item, n)) + rest) == Some((Copies(item, n), rest))
  {
    hide Copies;
    var s := HdrBytes(Repeat(item, n)) + rest;
    assert s[0] == n + 128 && s[1] == item && s[2..] == rest;
  }

  lemma NextIs(p: Packet<Byte>, rest: seq<Byte>)
    requires HdrPacket(p)
    ensures NextHdr(HdrBytes(p) + rest) == Some((Expand(p), rest))
  {
    hide NextHdr, HdrBytes, Copies;
    match p {
      case Raw(items) => NextIsRaw(items, rest);
      case Repeat(item, n) => NextIsRun(item, n, rest);
    }
  }

  lemma ReadsHdr(p: Packet<Byte>, width: nat, known: seq<Byte>, rest: seq<Byte>)
    requires HdrPacket(p) && |known| + |Expand(p)| <= width
    ensures DecodeHdr(HdrBytes(p) + rest, width, known) == DecodeHdr(rest, width, known + Expand(p))
  {
    hide NextHdr, HdrBytes, Copies;
    NextIs(p, rest);
  }

  /** The packets of a component. */
  ghost predicate HdrRow(packets: seq<Packet<Byte>>, row: seq<Byte>) {
    ExpandAll(packets) == row && forall i | 0 <= i < |packets| :: HdrPacket(packets[i])
  }

  lemma {:induction false} ReadsHdrAll(packets: seq<Packet<Byte>>, width: nat, rest: seq<Byte>)
    requires HdrRow(packets, ExpandAll(packets)) && |ExpandAll(packets)| <= width
    ensures DecodeHdr(HdrAll(packets) + rest, width, []) == DecodeHdr(rest, width, ExpandAll(packets))
    decreases |packets|
  {
    hide DecodeHdr, HdrPacket, HdrBytes, Expand;
    if packets == [] {
      assert [] + rest == rest;
    } else {
      var front, last := packets[..|packets| - 1], packets[|packets| - 1];
      assert forall i | 0 <= i < |front| :: front[i] == packets[i];
      assert HdrAll(packets) + rest == HdrAll(front) + (HdrBytes(last) + rest);
      ReadsHdrAll(front, width, HdrBytes(last) + rest);
      ReadsHdr(last, width, ExpandAll(front), rest);
    }
  }

  lemma HdrRoundTrip(packets: seq<Packet<Byte>>, row: seq<Byte>, rest: seq<Byte>)
    requires HdrRow(packets, row)
    ensures DecodeHdr(HdrAll(packets) + rest, |row|, []) == Some((row, rest))
  {
    hide HdrAll, ExpandAll, HdrPacket;
    ReadsHdrAll(packets, |row|, rest);
  }
}
