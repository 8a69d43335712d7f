/** With the writer's own tables, a scan is read back exactly when its values are in range. */
module JpegRange {
  import opened Options
  import opened Bits
  import opened JpegCoding
  import opened JpegHeader
  import opened JpegCodable
  import opened JpegWriting

  /** What is received in `size` bits has no more bits. */
  lemma ReceivedIsSmall(s: seq<bool>, size: nat)
    requires size > 0 && Receive(s, size).Some?
    ensures Magnitude(Receive(s, size).value.0) < Pow2(size)
  {
    hide Pow2;
    CodeValueBound(s[..size]);
    Halves(size);
  }

  lemma {:induction false} CodeValueBound(s: seq<bool>)
    ensures CodeValue(s) < Pow2(|s|)
  {
    if s != [] { CodeValueBound(s[..|s| - 1]); }
  }

  lemma LookupUses(t: Table, s: seq<bool>, k: nat)
    requires k <= 256 && Lookup(t, s, k).Some?
    ensures Uses(t, Lookup(t, s, k).value)
  {
  }

  /** No DC difference of 12 bits or more is decoded. */
  lemma DecodedDiff(component: nat, s: seq<bool>)
    requires DecodeDc(WriterTables(component), s).Some?
    ensures -2048 < DecodeDc(WriterTables(component), s).value.0 < 2048
  {
    hide WriterTables, Lookup, Receive, Uses, Pow2;
    var t := WriterTables(component);
    var symbol := Lookup(t.dc, s, 0).value;
    LookupUses(t.dc, s, 0);
    TablesUse(component, symbol);
    Powers();
    if symbol > 0 {
      ReceivedIsSmall(s[t.dc[symbol].size..], symbol);
      PowGrows(symbol, 11);
    }
  }

  ghost predicate Small(known: seq<int>) { forall i | 1 <= i < |known| :: -1024 < known[i] < 1024 }

  /** No AC value of 11 bits or more is decoded. */
  lemma {:induction false} DecodedAc(component: nat, s: seq<bool>, known: seq<int>)
    requires Small(known) && DecodeAc(WriterTables(component), s, known).Some?
    ensures Small(DecodeAc(WriterTables(component), s, known).value.0)
    ensures known <= DecodeAc(WriterTables(component), s, known).value.0
    decreases 64 - |known|
  {
    hide WriterTables, Lookup, Receive, Uses, Pow2;
    var t := WriterTables(component);
    if |known| < 64 {
      var symbol := Lookup(t.ac, s, 0).value;
      var rest, size := s[t.ac[symbol].size..], symbol % 16;
      LookupUses(t.ac, s, 0);
      TablesUse(component, symbol);
      if symbol == 0 {
      } else if size == 0 {
        DecodedAc(component, rest, known + Zeros(16));
      } else {
        ReceivedIsSmall(rest, size);
        Powers();
        PowGrows(size, 10);
        var v := Receive(rest, size).value;
        DecodedAc(component, v.1, known + Zeros(symbol / 16) + [v.0]);
      }
    }
  }

  lemma DecodedBlock(component: nat, s: seq<bool>, dc: int)
    requires DecodeBlock(WriterTables(component), s, dc).Some?
    ensures InRange(DecodeBlock(WriterTables(component), s, dc).value.0, dc)
  {
    hide WriterTables, DecodeDc, DecodeAc;
    var t := WriterTables(component);
    var diff := DecodeDc(t, s).value;
    DecodedDiff(component, s);
    DecodedAc(component, diff.1, [dc + diff.0]);
  }

  /** Every block of the scan is in range for its predictor. */
  ghost predicate ScanInRange(units: seq<Unit>) {
    forall i | 0 <= i < |units| :: InRange(units[i].block, Predictor(units[..i], units[i].component))
  }

  /** Whatever the bits are, what they decode to is in range. */
  lemma {:induction false} DecodedScan(s: seq<bool>, components: seq<nat>)
    requires DecodeScan(WriterTables, s, components).Some?
    ensures ScanInRange(DecodeScan(WriterTables, s, components).value.0)
    decreases |components|
  {
    hide WriterTables, DecodeBlock, InRange, Predictor;
    if components != [] {
      var k := |components| - 1;
      var front := DecodeScan(WriterTables, s, components[..k]).value;
      DecodedScan(s, components[..k]);
      DecodedBlock(components[k], front.1, Predictor(front.0, components[k]));
      var units := DecodeScan(WriterTables, s, components).value.0;
      assert units[..k] == front.0;
      assert forall i | 0 <= i < k :: units[..i] == front.0[..i] && units[i] == front.0[i];
    }
  }

  /** Main result: the coded scan, whatever follows it, is read back if and only if its values
    are in range. */
  lemma ReadBackIffInRange(units: seq<Unit>, rest: seq<bool>)
    ensures DecodeScan(WriterTables, ScanBits(WriterTables, units) + rest, Components(units)) == Some((units, rest))
       <==> ScanInRange(units)
  {
    hide WriterTables, DecodeScan, ScanBits, Codable, InRange, Predictor, Components;
    if ScanInRange(units) {
      CodableIffInRange(units);
      ReadsScan(WriterTables, units, rest);
    } else if DecodeScan(WriterTables, ScanBits(WriterTables, units) + rest, Components(units)).Some? {
      DecodedScan(ScanBits(WriterTables, units) + rest, Components(units));
    }
  }

  /** The writer with its own tables: what it puts out is read back as the scan if and only if
    the values are in range. */
  method WriteWithOwnTables(units: seq<Unit>) returns (out: seq<Byte>)
    requires ScanIndexed(units)
    ensures var scan := DecodeScan(WriterTables, HighFirst(Unstuffed(out)), Components(units));
            (scan.Some? && scan.value.0 == units) <==> ScanInRange(units)
  {
    hide WriterTables, DecodeScan, ScanBits, CodesFit, InRange, Predictor, Components, ScanIndexed,
      HighFirst, Unstuffed;
    forall c: nat
      ensures CodesFit(WriterTables(c).dc) && CodesFit(WriterTables(c).ac)
    {
      WriterCodesFit(c);
    }
    out := WriteScan(WriterTables, units);
    var s := HighFirst(Unstuffed(out));
    if ScanInRange(units) {
      CodableIffInRange(units);
    } else if DecodeScan(WriterTables, s, Components(units)).Some? {
      DecodedScan(s, Components(units));
    }
  }

  lemma WriterCodesFit(component: nat)
    ensures CodesFit(WriterTables(component).dc) && CodesFit(WriterTables(component).ac)
  {
    hide WriterTables, Describes, Fits, CodesFit;
    HeadDescribesTables(component);
    DescribedIsPrefixFree(DcHead(component), WriterTables(component).dc);
    DescribedIsPrefixFree(AcHead(component), WriterTables(component).ac);
  }
}
