/** The loops that write run-length packets, and the 64-byte buffer before the sink. */
module RunLengthWriting {
  import opened Options
  import opened Bits
  import opened RunLength

  const BUFFER_SIZE: nat := 64

  /** `stbi__write_context` */
  class WriteContext {
    /** What the callback has been given. */
    var sink: seq<Byte>
    const buffer: array<Byte>
    var bufUsed: nat

    ghost predicate Valid()
      reads this
    {
      buffer.Length == BUFFER_SIZE && bufUsed <= BUFFER_SIZE
    }

    /** Everything written: sink and buffer. */
    ghost function Written(): seq<Byte>
      requires Valid()
      reads this, buffer
    {
      sink + buffer[..bufUsed]
    }

    constructor ()
      ensures Valid() && fresh(buffer) && Written() == []
    {
      sink, bufUsed := [], 0;
      buffer := new Byte[BUFFER_SIZE](_ => 0);
    }

    /** `stbiw__write_flush` */
    method Flush()
      requires Valid()
      modifies this
      ensures Valid() && bufUsed == 0 && sink == old(Written())
    {
      if bufUsed != 0 {
        sink := sink + buffer[..bufUsed];
        bufUsed := 0;
      }
    }

    /** `stbiw__write1` */
    method Write1(a: Byte)
      requires Valid()
      modifies this, buffer
      ensures Valid() && Written() == old(Written()) + [a]
    {
      if bufUsed + 1 > BUFFER_SIZE {
        Flush();
      }
      ghost var w := Written();
      buffer[bufUsed] := a;
      bufUsed := bufUsed + 1;
      assert Written() == w + [a];
    }

    /** `stbiw__write3` */
    method Write3(a: Byte, b: Byte, c: Byte)
      requires Valid()
      modifies this, buffer
      ensures Valid() && Written() == old(Written()) + [a, b, c]
    {
      if bufUsed + 3 > BUFFER_SIZE {
        Flush();
      }
      ghost var w := Written();
      var n := bufUsed;
      bufUsed := n + 3;
      buffer[n] := a;
      buffer[n + 1] := b;
      buffer[n + 2] := c;
      assert Written() == w + [a, b, c];
    }

    /** `stbiw__write_pixel` as the TGA writer calls it. */
    method WritePixel(d: Pixel)
      requires Valid()
      modifies this, buffer
      ensures Valid() && Written() == old(Written()) + PixelBytes(d)
    {
      if |d| <= 2 {
        Write1(d[0]);
        if |d| == 2 {
          Write1(d[1]);
        }
      } else {
        Write3(d[2], d[1], d[0]);
        if |d| == 4 {
          Write1(d[3]);
        }
      }
      assert Written() == old(Written()) + PixelBytes(d);
    }

    // ------------------------------------------------------------------- TGA

    /** The next packet from position `i` of a row: how long it is, and whether it is raw. */
    method FindPacket(row: seq<Pixel>, i: nat) returns (len: nat, raw: bool)
      requires i < |row|
      ensures Found(row, i, len, raw)
    {
      raw, len := true, 1;
      if i < |row| - 1 {
        len := 2;
        raw := row[i] != row[i + 1];
        var k := i + 2;
        if raw {
          var prev := i;
          while k < |row| && len < 128
            invariant k == i + len <= |row| && prev == k - 2 && 2 <= len <= 128
            invariant forall j | i + 2 <= j < k :: row[j] != row[j - 2]
          {
            if row[prev] == row[k] {
              len := len - 1;
              break;
            }
            prev, len, k := prev + 1, len + 1, k + 1;
          }
        } else {
          while k < |row| && len < 128
            invariant k == i + len <= |row| && 2 <= len <= 128
            invariant forall j | i <= j < k :: row[j] == row[i]
          {
            if row[i] != row[k] {
              break;
            }
            len, k := len + 1, k + 1;
          }
        }
      }
    }

    /** A packet of pixels as they are. */
    method WriteRawPacket(items: seq<Pixel>)
      requires Valid() && 1 <= |items| <= 128
      modifies this, buffer
      ensures Valid() && Written() == old(Written()) + TgaBytes(Raw(items))
    {
      hide PixelBytes, PixelsBytes, WriteContext.Written;
      Write1((|items| - 1) % 256);
      NoPixels();
      for k := 0 to |items|
        invariant Valid() && Written() == old(Written()) + [(|items| - 1) % 256] + PixelsBytes(items[..k])
      {
        PixelsPush(items[..k], items[k]);
        assert items[..k + 1] == items[..k] + [items[k]];
        WritePixel(items[k]);
      }
      assert items[..|items|] == items;
    }

    /** A packet of one pixel repeated. */
    method WriteRepeatPacket(item: Pixel, len: nat)
      requires Valid() && 1 <= len <= 128
      modifies this, buffer
      ensures Valid() && Written() == old(Written()) + TgaBytes(Repeat(item, len))
    {
      hide PixelBytes, WriteContext.Written;
      Write1((len - 129) % 256);
      WritePixel(item);
    }

    /** One packet of pixels. */
    method WritePacket(row: seq<Pixel>, i: nat, len: nat, raw: bool, ghost comp: nat) returns (ghost p: Packet<Pixel>)
      requires Valid() && Uniform(row, comp) && 1 <= len <= 128 && i + len <= |row|
      requires !raw ==> forall k | i <= k < i + len :: row[k] == row[i]
      modifies this, buffer
      ensures Valid() && TgaPacket(p, comp) && Expand(p) == row[i..i + len] && p.Raw? == raw
      ensures Written() == old(Written()) + TgaBytes(p)
    {
      hide TgaBytes, WriteContext.Written;
      if raw {
        p := Raw(row[i..i + len]);
        WriteRawPacket(row[i..i + len]);
      } else {
        p := Repeat(row[i], len);
        WriteRepeatPacket(row[i], len);
        assert Copies(row[i], len) == row[i..i + len];
      }
    }

    /** One row of `stbi_write_tga_core`. */
    method WriteRow(row: seq<Pixel>, ghost comp: nat) returns (ghost packets: seq<Packet<Pixel>>)
      requires Valid() && Uniform(row, comp)
      modifies this, buffer
      ensures Valid() && TgaRow(packets, comp, row) && AllFound(packets, row)
      ensures Written() == old(Written()) + TgaAll(packets)
    {
      hide WriteContext.Written, TgaPacket, TgaBytes, Expand, Found, AllFound;
      packets := [];
      NoPackets();
      NoneFound(row);
      var i := 0;
      while i < |row|
        invariant Valid() && i <= |row| && TgaRow(packets, comp, row[..i]) && AllFound(packets, row)
        invariant Written() == old(Written()) + TgaAll(packets)
      {
        var len, raw := FindPacket(row, i);
        FoundFits(row, i, len, raw);
        ghost var p := WritePacket(row, i, len, raw, comp);
        ExpandPush(packets, p);
        FoundPush(packets, p, row, i, len, raw);
        TgaAllPush(packets, p);
        assert row[..i + len] == row[..i] + row[i..i + len];
        packets := packets + [p];
        i := i + len;
      }
      assert row[..i] == row;
    }

    /** The rows of `stbi_write_tga_core`, last to first unless flipped; flushing at the end
      leaves everything in the sink. */
    method WriteTga(rows: seq<seq<Pixel>>, comp: nat, flip: bool)
      requires Valid() && 1 <= comp <= 4 && forall j | 0 <= j < |rows| :: Uniform(rows[j], comp)
      modifies this, buffer
      ensures Valid() && bufUsed == 0 && |old(Written())| <= |sink| && sink[..|old(Written())|] == old(Written())
      ensures var read := DecodeRows(sink[|old(Written())|..], comp, Widths(Ordered(rows, flip)));
              && read.Some? && read.value.1 == [] && |read.value.0| == |rows|
              && forall k | 0 <= k < |rows| :: read.value.0[k] == if flip then rows[k] else rows[|rows| - 1 - k]
    {
      hide WriteContext.Written, DecodeRows, TgaAll, TgaRow, Widths, AllFound, RowsBytes;
      ghost var order := Ordered(rows, flip);
      ghost var coded: seq<seq<Packet<Pixel>>> := [];
      NoRows();
      for k := 0 to |rows|
        invariant Valid() && |coded| == k && forall m | 0 <= m < k :: TgaRow(coded[m], comp, order[m])
        invariant Written() == old(Written()) + RowsBytes(coded)
      {
        var j := if flip then k else |rows| - 1 - k;
        assert order[k] == rows[j];
        ghost var packets := WriteRow(rows[j], comp);
        RowsPush(coded, packets);
        coded := coded + [packets];
      }
      Flush();
      RowsRoundTrip(coded, comp, order, []);
      assert RowsBytes(coded) + [] == RowsBytes(coded) == sink[|old(Written())|..];
    }

    // ------------------------------------------------------------------- HDR

    /** `stbiw__write_run_data` */
    method WriteRunData(length: nat, databyte: Byte)
      requires Valid() && length <= 127
      modifies this`sink
      ensures sink == old(sink) + HdrBytes(Repeat(databyte, length))
    {
      sink := sink + [(length + 128) % 256];
      sink := sink + [databyte];
    }

    /** `stbiw__write_dump_data` */
    method WriteDumpData(data: seq<Byte>)
      requires Valid() && |data| <= 128
      modifies this`sink
      ensures sink == old(sink) + HdrBytes(Raw(data))
    {
      sink := sink + [|data| % 256];
      sink := sink + data;
    }

    /** Bytes as they are, at most 128 at a time. */
    method Dump(comp: seq<Byte>, x0: nat, r: nat, ghost before: seq<Packet<Byte>>)
      returns (ghost packets: seq<Packet<Byte>>)
      requires Valid() && x0 <= r <= |comp| && HdrRow(before, comp[..x0]) && Tight(before)
      requires forall k | x0 <= k < r && k + 2 < |comp| :: !(comp[k] == comp[k + 1] == comp[k + 2])
      modifies this`sink
      ensures HdrRow(packets, comp[..r]) && Tight(packets)
      ensures exists more :: HdrAll(packets) == HdrAll(before) + more && sink == old(sink) + more
    {
      hide HdrPacket, HdrBytes, Expand, HdrAll, ExpandAll;
      packets := before;
      var x := x0;
      ghost var more: seq<Byte> := [];
      while x < r
        invariant x0 <= x <= r && HdrRow(packets, comp[..x]) && Tight(packets)
        invariant HdrAll(packets) == HdrAll(before) + more && sink == old(sink) + more
      {
        var len := if r - x > 128 then 128 else r - x;
        ghost var p := Raw(comp[x..x + len]);
        WriteDumpData(comp[x..x + len]);
        DumpPacket(comp, x, len, packets);
        more := more + HdrBytes(p);
        packets := packets + [p];
        x := x + len;
      }
    }

    /** A run, at most 127 at a time. */
    method Runs(comp: seq<Byte>, x0: nat, r: nat, ghost before: seq<Packet<Byte>>)
      returns (ghost packets: seq<Packet<Byte>>)
      requires Valid() && x0 < r <= |comp| && HdrRow(before, comp[..x0]) && Tight(before)
        && forall k | x0 <= k < r :: comp[k] == comp[x0]
      modifies this`sink
      ensures HdrRow(packets, comp[..r]) && Tight(packets)
      ensures exists more :: HdrAll(packets) == HdrAll(before) + more && sink == old(sink) + more
    {
      hide HdrPacket, HdrBytes, Expand, HdrAll, ExpandAll;
      packets := before;
      var x := x0;
      ghost var more: seq<Byte> := [];
      while x < r
        invariant x0 <= x <= r && HdrRow(packets, comp[..x]) && Tight(packets)
        invariant HdrAll(packets) == HdrAll(before) + more && sink == old(sink) + more
      {
        var len := if r - x > 127 then 127 else r - x;
        ghost var p := Repeat(comp[x], len);
        WriteRunData(len, comp[x]);
        RunPacket(comp, x, len, packets);
        more := more + HdrBytes(p);
        packets := packets + [p];
        x := x + len;
      }
    }

    /** One component of `stbiw__write_hdr_scanline`: decoding it gives the bytes back. */
    method WriteComponent(comp: seq<Byte>) returns (ghost packets: seq<Packet<Byte>>)
      requires Valid()
      modifies this`sink
      ensures HdrRow(packets, comp) && Tight(packets) && sink == old(sink) + HdrAll(packets)
    {
      hide HdrPacket, HdrAll, ExpandAll;
      packets := [];
      NoHdrPackets();
      var width := |comp|;
      var x := 0;
      while x < width
        invariant x <= width && HdrRow(packets, comp[..x]) && Tight(packets) && sink == old(sink) + HdrAll(packets)
      {
        var r := FindRun(comp, x);
        packets := Dump(comp, x, r, packets);
        x := r;
        if r + 2 < width {
          while r < width && comp[r] == comp[x]
            invariant x <= r <= width && (r == x ==> x < width) && forall k | x <= k < r :: comp[k] == comp[x]
          {
            r := r + 1;
          }
          packets := Runs(comp, x, r, packets);
          x := r;
        }
      }
      assert comp[..x] == comp;
    }

    /** The first place with three equal bytes, or the end. */
    method FindRun(comp: seq<Byte>, x: nat) returns (r: nat)
      requires x < |comp|
      ensures x <= r <= |comp| && (r < |comp| ==> r + 2 < |comp| && comp[r] == comp[r + 1] == comp[r + 2])
      ensures forall k | x <= k < r && k + 2 < |comp| :: !(comp[k] == comp[k + 1] == comp[k + 2])
    {
      r := x;
      while r + 2 < |comp|
        invariant x <= r <= |comp|
          && forall k | x <= k < r && k + 2 < |comp| :: !(comp[k] == comp[k + 1] == comp[k + 2])
      {
        if comp[r] == comp[r + 1] && comp[r] == comp[r + 2] {
          break;
        }
        r := r + 1;
      }
      if r + 2 >= |comp| {
        r := |comp|;
      }
    }

    /** The four components of a scanline, one after the other behind a header. */
    method WriteComponents(rgbe: seq<seq<Byte>>)
      requires Valid() && Scanline(rgbe) && 8 <= |rgbe[0]| < 32768
      modifies this`sink
      ensures |old(sink)| <= |sink| && sink[..|old(sink)|] == old(sink)
      ensures DecodeComponentsOf(sink[|old(sink)|..], |rgbe[0]|) == Some((rgbe, []))
    {
      hide HdrAll, HdrRow;
      var width := |rgbe[0]|;
      sink := sink + [2, 2, width / 256, width % 256];
      ghost var coded: seq<seq<Packet<Byte>>> := [];
      for c := 0 to 4
        invariant |coded| == c && (forall m | 0 <= m < c :: HdrRow(coded[m], rgbe[m]))
        invariant sink == old(sink) + ([2, 2, width / 256, width % 256] + ComponentsBytes(coded))
      {
        ghost var packets := WriteComponent(rgbe[c]);
        ComponentsPush(coded, packets);
        coded := coded + [packets];
      }
      ghost var s := sink[|old(sink)|..];
      assert s[4..] == ComponentsBytes(coded) + [];
      ComponentsRoundTrip(coded, width, rgbe, []);
    }

    /** The pixels of a scanline as they are, four bytes each. */
    method WriteFlat(rgbe: seq<seq<Byte>>)
      requires Valid() && Scanline(rgbe)
      modifies this`sink
      ensures sink == old(sink) + FlatBytes(rgbe, |rgbe[0]|)
    {
      for x := 0 to |rgbe[0]|
        invariant sink == old(sink) + FlatBytes(rgbe, x)
      {
        sink := sink + [rgbe[0][x], rgbe[1][x], rgbe[2][x], rgbe[3][x]];
      }
    }

    /** `stbiw__write_hdr_scanline`: widths that the header cannot hold, and the smallest, are
      written flat. */
    method WriteScanline(rgbe: seq<seq<Byte>>)
      requires Valid() && Scanline(rgbe)
      modifies this`sink
      ensures |old(sink)| <= |sink| && sink[..|old(sink)|] == old(sink)
      ensures DecodeScanline(sink[|old(sink)|..], |rgbe[0]|) == Some((rgbe, []))
    {
      hide DecodeFlat, DecodeComponentsOf, FlatBytes;
      if |rgbe[0]| < 8 || |rgbe[0]| >= 32768 {
        WriteFlat(rgbe);
        FlatRoundTrip(rgbe, []);
        assert sink[|old(sink)|..] == FlatBytes(rgbe, |rgbe[0]|) + [];
      } else {
        WriteComponents(rgbe);
      }
    }
  }

  /** The packet that begins at pixel `i`: a run is as long as it can be, up to 128, and pixels
    go out raw until one equals the one before the last, when the last is left for later. */
  ghost predicate Found(row: seq<Pixel>, i: nat, len: nat, raw: bool) {
    && i < |row| && 1 <= len <= 128 && i + len <= |row| && (raw <==> i == |row| - 1 || row[i] != row[i + 1])
    && (if raw
        then (forall k | i + 2 <= k < i + len :: row[k] != row[k - 2])
             && (i + len == |row| || len == 128 || (i + len + 1 < |row| && row[i + len + 1] == row[i + len - 1]))
        else (forall k | i <= k < i + len :: row[k] == row[i])
             && (i + len == |row| || len == 128 || row[i + len] != row[i]))
  }

  /** Every packet is the one found behind the packets before it. */
  ghost predicate AllFound(packets: seq<Packet<Pixel>>, row: seq<Pixel>) {
    forall k | 0 <= k < |packets| ::
      Found(row, |ExpandAll(packets[..k])|, |Expand(packets[k])|, packets[k].Raw?)
  }

  lemma FoundFits(row: seq<Pixel>, i: nat, len: nat, raw: bool)
    requires Found(row, i, len, raw)
    ensures 1 <= len <= 128 && i + len <= |row| && (!raw ==> forall k | i <= k < i + len :: row[k] == row[i])
  {
  }

  lemma NoneFound(row: seq<Pixel>)
    ensures AllFound([], row)
  {
  }

  lemma FoundPush(packets: seq<Packet<Pixel>>, p: Packet<Pixel>, row: seq<Pixel>, i: nat, len: nat, raw: bool)
    requires AllFound(packets, row) && |ExpandAll(packets)| == i && |Expand(p)| == len && p.Raw? == raw
    requires Found(row, i, len, raw)
    ensures AllFound(packets + [p], row)
  {
    hide Found, ExpandAll, Expand;
    var q := packets + [p];
    forall k | 0 <= k < |q|
      ensures Found(row, |ExpandAll(q[..k])|, |Expand(q[k])|, q[k].Raw?)
    {
      assert q[..k] == if k < |packets| then packets[..k] else packets;
    }
  }

  /** No three equal bytes in a row are written as they are. */
  ghost predicate Tight(packets: seq<Packet<Byte>>) {
    forall i, k | 0 <= i < |packets| && packets[i].Raw? && 0 <= k < |packets[i].items| - 2 ::
      !(packets[i].items[k] == packets[i].items[k + 1] == packets[i].items[k + 2])
  }

  lemma NoPixels()
    ensures PixelsBytes([]) == []
  {
  }

  lemma PixelsPush(row: seq<Pixel>, d: Pixel)
    ensures PixelsBytes(row + [d]) == PixelsBytes(row) + PixelBytes(d)
  {
    assert (row + [d])[..|row|] == row;
  }

  lemma NoPackets()
    ensures TgaAll([]) == [] && ExpandAll<Pixel>([]) == []
  {
  }

  lemma TgaAllPush(packets: seq<Packet<Pixel>>, p: Packet<Pixel>)
    ensures TgaAll(packets + [p]) == TgaAll(packets) + TgaBytes(p)
  {
    assert (packets + [p])[..|packets|] == packets;
  }

  lemma NoHdrPackets()
    ensures HdrAll([]) == [] && ExpandAll<Byte>([]) == []
  {
  }

  lemma DumpPacket(comp: seq<Byte>, x: nat, len: nat, packets: seq<Packet<Byte>>)
    requires 0 < len <= 128 && x + len <= |comp| && HdrRow(packets, comp[..x])
    ensures HdrRow(packets + [Raw(comp[x..x + len])], comp[..x + len])
    ensures HdrAll(packets + [Raw(comp[x..x + len])]) == HdrAll(packets) + HdrBytes(Raw(comp[x..x + len]))
  {
    var p := Raw(comp[x..x + len]);
    assert (packets + [p])[..|packets|] == packets;
    ExpandPush(packets, p);
    assert comp[..x + len] == comp[..x] + comp[x..x + len];
  }

  lemma RunPacket(comp: seq<Byte>, x: nat, len: nat, packets: seq<Packet<Byte>>)
    requires 0 < len <= 127 && x + len <= |comp| && HdrRow(packets, comp[..x])
    requires forall k | x <= k < x + len :: comp[k] == comp[x]
    ensures HdrRow(packets + [Repeat(comp[x], len)], comp[..x + len])
    ensures HdrAll(packets + [Repeat(comp[x], len)]) == HdrAll(packets) + HdrBytes(Repeat(comp[x], len))
  {
    var p := Repeat(comp[x], len);
    assert (packets + [p])[..|packets|] == packets;
    ExpandPush(packets, p);
    assert Copies(comp[x], len) == comp[x..x + len];
    assert comp[..x + len] == comp[..x] + comp[x..x + len];
  }

  /** The rows in the order of writing. */
  function Ordered(rows: seq<seq<Pixel>>, flip: bool): (order: seq<seq<Pixel>>)
    ensures |order| == |rows|
  {
    seq(|rows|, k requires 0 <= k < |rows| => rows[if flip then k else |rows| - 1 - k])
  }

  function Widths(rows: seq<seq<Pixel>>): (w: seq<nat>)
    ensures |w| == |rows|
  {
    seq(|rows|, k requires 0 <= k < |rows| => |rows[k]|)
  }

  /** Rows of the given widths, one after the other. */
  function DecodeRows(s: seq<Byte>, comp: nat, widths: seq<nat>): Option<(seq<seq<Pixel>>, seq<Byte>)>
    requires 1 <= comp <= 4
  {
    if widths == [] then Some(([], s))
    else
      var front := DecodeRows(s, comp, widths[..|widths| - 1]);
      if front.None? then None
      else
        var row := DecodeTga(front.value.1, comp, widths[|widths| - 1], []);
        if row.None? then None else Some((front.value.0 + [row.value.0], row.value.1))
  }

  function RowsBytes(coded: seq<seq<Packet<Pixel>>>): seq<Byte> {
    if coded == [] then [] else RowsBytes(coded[..|coded| - 1]) + TgaAll(coded[|coded| - 1])
  }

  lemma NoRows()
    ensures RowsBytes([]) == []
  {
  }

  lemma RowsPush(coded: seq<seq<Packet<Pixel>>>, packets: seq<Packet<Pixel>>)
    ensures RowsBytes(coded + [packets]) == RowsBytes(coded) + TgaAll(packets)
  {
    assert (coded + [packets])[..|coded|] == coded;
  }

  /** All rows read back. */
  lemma {:induction false} RowsRoundTrip(coded: seq<seq<Packet<Pixel>>>, comp: nat, rows: seq<seq<Pixel>>,
        rest: seq<Byte>)
    requires 1 <= comp <= 4 && |coded| == |rows| && forall k | 0 <= k < |rows| :: TgaRow(coded[k], comp, rows[k])
    ensures DecodeRows(RowsBytes(coded) + rest, comp, Widths(rows)) == Some((rows, rest))
  {
    hide TgaRow, TgaAll, DecodeTga;
    if rows == [] {
      assert [] + rest == rest;
    } else {
      var k := |rows| - 1;
      assert RowsBytes(coded) + rest == RowsBytes(coded[..k]) + (TgaAll(coded[k]) + rest);
      RowsRoundTrip(coded[..k], comp, rows[..k], TgaAll(coded[k]) + rest);
      assert Widths(rows)[..k] == Widths(rows[..k]);
      TgaRoundTrip(coded[k], comp, rows[k], rest);
      assert rows == rows[..k] + [rows[k]];
    }
  }

  // ------------------------------------------------------------- HDR scanlines

  function ComponentsBytes(coded: seq<seq<Packet<Byte>>>): seq<Byte> {
    if coded == [] then [] else ComponentsBytes(coded[..|coded| - 1]) + HdrAll(coded[|coded| - 1])
  }

  lemma ComponentsPush(coded: seq<seq<Packet<Byte>>>, packets: seq<Packet<Byte>>)
    ensures ComponentsBytes(coded + [packets]) == ComponentsBytes(coded) + HdrAll(packets)
  {
    assert (coded + [packets])[..|coded|] == coded;
  }

  /** `n` components of `width` bytes. */
  function DecodeComponents(s: seq<Byte>, width: nat, n: nat): (r: Option<(seq<seq<Byte>>, seq<Byte>)>) {
    if n == 0 then Some(([], s))
    else
      var front := DecodeComponents(s, width, n - 1);
      if front.None? then None
      else
        var row := DecodeHdr(front.value.1, width, []);
        if row.None? then None else Some((front.value.0 + [row.value.0], row.value.1))
  }

  function Width(high: nat, low: nat): nat { 256 * high + low }

  /** A scanline with its header: two bytes of 2 and the width, high byte first. */
  function DecodeComponentsOf(s: seq<Byte>, width: nat): Option<(seq<seq<Byte>>, seq<Byte>)> {
    if |s| < 4 || s[0] != 2 || s[1] != 2 || s[2] >= 128 || Width(s[2], s[3]) != width then None
    else DecodeComponents(s[4..], width, 4)
  }

  /** The same number of bytes for each of the four components. */
  ghost predicate Scanline(rgbe: seq<seq<Byte>>) {
    |rgbe| == 4 && forall c | 0 <= c < 4 :: |rgbe[c]| == |rgbe[0]|
  }

  /** The first `n` pixels, each with its four bytes. */
  function FlatBytes(rgbe: seq<seq<Byte>>, n: nat): (s: seq<Byte>)
    requires |rgbe| == 4 && forall c | 0 <= c < 4 :: n <= |rgbe[c]|
    ensures |s| == 4 * n
  {
    if n == 0 then [] else FlatBytes(rgbe, n - 1) + [rgbe[0][n - 1], rgbe[1][n - 1], rgbe[2][n - 1], rgbe[3][n - 1]]
  }

  /** Every fourth byte from byte `c` on. */
  function Plane(s: seq<Byte>, width: nat, c: nat): (plane: seq<Byte>)
    requires c < 4 && |s| >= 4 * width
    ensures |plane| == width
  {
    seq(width, x requires 0 <= x < width => s[4 * x + c])
  }

  function DecodeFlat(s: seq<Byte>, width: nat): Option<(seq<seq<Byte>>, seq<Byte>)> {
    if |s| < 4 * width then None
    else Some(([Plane(s, width, 0), Plane(s, width, 1), Plane(s, width, 2), Plane(s, width, 3)], s[4 * width..]))
  }

  /** The reader knows the width from the head of the file. */
  function DecodeScanline(s: seq<Byte>, width: nat): Option<(seq<seq<Byte>>, seq<Byte>)> {
    if width < 8 || width >= 32768 then DecodeFlat(s, width) else DecodeComponentsOf(s, width)
  }

  lemma {:induction false} FlatByteAt(rgbe: seq<seq<Byte>>, n: nat, x: nat, c: nat)
    requires |rgbe| == 4 && (forall d | 0 <= d < 4 :: n <= |rgbe[d]|) && x < n && c < 4
    ensures FlatBytes(rgbe, n)[4 * x + c] == rgbe[c][x]
  {
    if x < n - 1 { FlatByteAt(rgbe, n - 1, x, c); }
  }

  lemma FlatRoundTrip(rgbe: seq<seq<Byte>>, rest: seq<Byte>)
    requires Scanline(rgbe)
    ensures DecodeFlat(FlatBytes(rgbe, |rgbe[0]|) + rest, |rgbe[0]|) == Some((rgbe, rest))
  {
    hide FlatBytes;
    var width := |rgbe[0]|;
    var s := FlatBytes(rgbe, width) + rest;
    forall c | 0 <= c < 4
      ensures Plane(s, width, c) == rgbe[c]
    {
      forall x | 0 <= x < width
        ensures Plane(s, width, c)[x] == rgbe[c][x]
      {
        FlatByteAt(rgbe, width, x, c);
      }
    }
    assert rgbe == [rgbe[0], rgbe[1], rgbe[2], rgbe[3]];
    assert s[4 * width..] == rest;
  }

  lemma {:induction false} ComponentsRoundTrip(coded: seq<seq<Packet<Byte>>>, width: nat, rows: seq<seq<Byte>>,
        rest: seq<Byte>)
    requires |coded| == |rows| && forall k | 0 <= k < |rows| :: HdrRow(coded[k], rows[k]) && |rows[k]| == width
    ensures DecodeComponents(ComponentsBytes(coded) + rest, width, |rows|) == Some((rows, rest))
  {
    hide HdrRow, HdrAll, DecodeHdr;
    if rows == [] {
      assert [] + rest == rest;
    } else {
      var k := |rows| - 1;
      assert ComponentsBytes(coded) + rest == ComponentsBytes(coded[..k]) + (HdrAll(coded[k]) + rest);
      ComponentsRoundTrip(coded[..k], width, rows[..k], HdrAll(coded[k]) + rest);
      HdrRoundTrip(coded[k], rows[k], rest);
      assert rows == rows[..k] + [rows[k]];
    }
  }
}
