/** The tables of the JPEG writer are the ones the head of its file describes, and they have
  codes for every block whose values are in range.
 */
module JpegCodable {
  import opened Bits
  import opened JpegCoding
  import opened JpegHeader
  import opened JpegTables

  // ----------------------------------------------------- luminance, DC

  /** The codes the counts lead to. */
  function YDcKnown(i: nat): Code {
    if i < 1 then Code(i, 2)
    else if i < 6 then Code(2 + (i - 1), 3)
    else if i < 7 then Code(14 + (i - 6), 4)
    else if i < 8 then Code(30 + (i - 7), 5)
    else if i < 9 then Code(62 + (i - 8), 6)
    else if i < 10 then Code(126 + (i - 9), 7)
    else if i < 11 then Code(254 + (i - 10), 8)
    else if i < 12 then Code(510 + (i - 11), 9)
    else NONE
  }

  /** Where a code of the table comes in the list. */
  function YDcPlace(c: Code): int {
    match c.size
    case 2 => c.value case 3 => c.value - 1 case 4 => c.value - 8 case 5 => c.value - 23 case 6 => c.value - 54
    case 7 => c.value - 117 case 8 => c.value - 244 case 9 => c.value - 499 case _ => 0
  }

  lemma YDcHeaderCode(i: nat)
    requires i < 12
    ensures HeaderCode(YDcHead(), i) == YDcKnown(i)
  {
    hide CodeAt;
    FourLengths(YDcCount, i, 1, 0);
    if i >= 7 {
      FourLengths(YDcCount, i - 7, 5, 30);
    }
    if i >= 11 {
      FourLengths(YDcCount, i - 11, 9, 510);
    }
  }

  lemma YDcMatches(i: nat)
    requires i < 12
    ensures YDcCode(i) == YDcKnown(i)
  {
  }

  lemma YDcUses(s: nat)
    ensures YDcCode(s).size > 0 <==> s < 12
    ensures YDcCode(s) != NONE <==> s < 12
    ensures s < 12 ==> YDcPlace(YDcCode(s)) == s
  {
  }

  lemma YDcDescribed()
    ensures Describes(YDcHead(), YDcTable()) && Fits(YDcHead())
  {
    hide HeaderCode, YDcTable, YDcCode, YDcKnown;
    forall i: nat | i < 12
      ensures DcSymbol(i) < 256 && YDcTable()[DcSymbol(i)] == HeaderCode(YDcHead(), i)
    {
      YDcHeaderCode(i);
      YDcMatches(i);
    }
    forall s: nat | s < 256 && YDcTable()[s] != NONE
      ensures exists i: nat :: i < 12 && DcSymbol(i) == s
    {
      YDcUses(s);
      assert DcSymbol(s) == s;
    }
    YDcLast();
  }

  lemma YDcLast()
    ensures Fits(YDcHead())
  {
    hide HeaderCode;
    YDcHeaderCode(11);
    assert YDcKnown(11) == Code(510, 9);
    Powers();
  }

  // --------------------------------------------------- chrominance, DC

  /** The codes the counts lead to. */
  function UvDcKnown(i: nat): Code {
    if i < 3 then Code(i, 2)
    else if i < 4 then Code(6 + (i - 3), 3)
    else if i < 5 then Code(14 + (i - 4), 4)
    else if i < 6 then Code(30 + (i - 5), 5)
    else if i < 7 then Code(62 + (i - 6), 6)
    else if i < 8 then Code(126 + (i - 7), 7)
    else if i < 9 then Code(254 + (i - 8), 8)
    else if i < 10 then Code(510 + (i - 9), 9)
    else if i < 11 then Code(1022 + (i - 10), 10)
    else if i < 12 then Code(2046 + (i - 11), 11)
    else NONE
  }

  /** Where a code of the table comes in the list. */
  function UvDcPlace(c: Code): int {
    match c.size
    case 2 => c.value case 3 => c.value - 3 case 4 => c.value - 10 case 5 => c.value - 25 case 6 => c.value - 56
    case 7 => c.value - 119 case 8 => c.value - 246 case 9 => c.value - 501 case 10 => c.value - 1012
    case 11 => c.value - 2035 case _ => 0
  }

  lemma UvDcHeaderCode(i: nat)
    requires i < 12
    ensures HeaderCode(UvDcHead(), i) == UvDcKnown(i)
  {
    hide CodeAt;
    FourLengths(UvDcCount, i, 1, 0);
    if i >= 5 {
      FourLengths(UvDcCount, i - 5, 5, 30);
    }
    if i >= 9 {
      FourLengths(UvDcCount, i - 9, 9, 510);
    }
  }

  lemma UvDcMatches(i: nat)
    requires i < 12
    ensures UvDcCode(i) == UvDcKnown(i)
  {
  }

  lemma UvDcUses(s: nat)
    ensures UvDcCode(s).size > 0 <==> s < 12
    ensures UvDcCode(s) != NONE <==> s < 12
    ensures s < 12 ==> UvDcPlace(UvDcCode(s)) == s
  {
  }

  lemma UvDcDescribed()
    ensures Describes(UvDcHead(), UvDcTable()) && Fits(UvDcHead())
  {
    hide HeaderCode, UvDcTable, UvDcCode, UvDcKnown;
    forall i: nat | i < 12
      ensures DcSymbol(i) < 256 && UvDcTable()[DcSymbol(i)] == HeaderCode(UvDcHead(), i)
    {
      UvDcHeaderCode(i);
      UvDcMatches(i);
    }
    forall s: nat | s < 256 && UvDcTable()[s] != NONE
      ensures exists i: nat :: i < 12 && DcSymbol(i) == s
    {
      UvDcUses(s);
      assert DcSymbol(s) == s;
    }
    UvDcLast();
  }

  lemma UvDcLast()
    ensures Fits(UvDcHead())
  {
    hide HeaderCode;
    UvDcHeaderCode(11);
    assert UvDcKnown(11) == Code(2046, 11);
    Powers();
  }

  // ----------------------------------------------------- luminance, AC

  /** The codes the counts lead to. */
  function YAcKnown(i: nat): Code {
    if i < 2 then Code(i, 2)
    else if i < 3 then Code(4 + (i - 2), 3)
    else if i < 6 then Code(10 + (i - 3), 4)
    else if i < 9 then Code(26 + (i - 6), 5)
    else if i < 11 then Code(58 + (i - 9), 6)
    else if i < 15 then Code(120 + (i - 11), 7)
    else if i < 18 then Code(248 + (i - 15), 8)
    else if i < 23 then Code(502 + (i - 18), 9)
    else if i < 28 then Code(1014 + (i - 23), 10)
    else if i < 32 then Code(2038 + (i - 28), 11)
    else if i < 36 then Code(4084 + (i - 32), 12)
    else if i < 37 then Code(32704 + (i - 36), 15)
    else if i < 162 then Code(65410 + (i - 37), 16)
    else NONE
  }

  /** Where a code of the table comes in the list. */
  function YAcPlace(c: Code): int {
    match c.size
    case 2 => c.value case 3 => c.value - 2 case 4 => c.value - 7 case 5 => c.value - 20 case 6 => c.value - 49
    case 7 => c.value - 109 case 8 => c.value - 233 case 9 => c.value - 484 case 10 => c.value - 991
    case 11 => c.value - 2010 case 12 => c.value - 4052 case 15 => c.value - 32668 case 16 => c.value - 65373
    case _ => 0
  }

  lemma YAcHeaderCode(i: nat)
    requires i < 162
    ensures HeaderCode(YAcHead(), i) == YAcKnown(i)
  {
    hide CodeAt;
    FourLengths(YAcCount, i, 1, 0);
    if i >= 6 {
      FourLengths(YAcCount, i - 6, 5, 26);
    }
    if i >= 18 {
      FourLengths(YAcCount, i - 18, 9, 502);
    }
    if i >= 36 {
      FourLengths(YAcCount, i - 36, 13, 8176);
    }
  }

  lemma YAcMatchesA(i: nat)
    requires i < 96
    ensures YAcSymbol(i) < 256 && YAcCode(YAcSymbol(i)) == YAcKnown(i)
  {
  }

  lemma YAcMatchesB(i: nat)
    requires 96 <= i < 162
    ensures YAcSymbol(i) < 256 && YAcCode(YAcSymbol(i)) == YAcKnown(i)
  {
  }

  lemma YAcListedA(s: nat)
    requires s < 128 && YAcCode(s) != NONE
    ensures var i := YAcPlace(YAcCode(s)); 0 <= i < 162 && YAcSymbol(i) == s
  {
  }

  lemma YAcListedB(s: nat)
    requires 128 <= s < 256 && YAcCode(s) != NONE
    ensures var i := YAcPlace(YAcCode(s)); 0 <= i < 162 && YAcSymbol(i) == s
  {
  }

  lemma YAcUses(s: nat)
    requires s < 256
    ensures YAcCode(s).size > 0 <==> AcCovered(s)
  {
  }

  lemma YAcDescribed()
    ensures Describes(YAcHead(), YAcTable()) && Fits(YAcHead())
  {
    hide HeaderCode, YAcTable, YAcCode, YAcKnown, YAcSymbol, YAcPlace;
    forall i: nat | i < 162
      ensures YAcSymbol(i) < 256 && YAcTable()[YAcSymbol(i)] == HeaderCode(YAcHead(), i)
    {
      YAcHeaderCode(i);
      if i < 96 { YAcMatchesA(i); } else { YAcMatchesB(i); }
    }
    forall s: nat | s < 256 && YAcTable()[s] != NONE
      ensures exists i: nat :: i < 162 && YAcSymbol(i) == s
    {
      if s < 128 { YAcListedA(s); } else { YAcListedB(s); }
      var i: nat := YAcPlace(YAcCode(s));
      assert YAcSymbol(i) == s;
    }
    YAcLast();
  }

  lemma YAcLast()
    ensures Fits(YAcHead())
  {
    hide HeaderCode;
    YAcHeaderCode(161);
    assert YAcKnown(161) == Code(65534, 16);
    Powers();
  }

  // --------------------------------------------------- chrominance, AC

  /** The codes the counts lead to. */
  function UvAcKnown(i: nat): Code {
    if i < 2 then Code(i, 2)
    else if i < 3 then Code(4 + (i - 2), 3)
    else if i < 5 then Code(10 + (i - 3), 4)
    else if i < 9 then Code(24 + (i - 5), 5)
    else if i < 13 then Code(56 + (i - 9), 6)
    else if i < 16 then Code(120 + (i - 13), 7)
    else if i < 20 then Code(246 + (i - 16), 8)
    else if i < 27 then Code(500 + (i - 20), 9)
    else if i < 32 then Code(1014 + (i - 27), 10)
    else if i < 36 then Code(2038 + (i - 32), 11)
    else if i < 40 then Code(4084 + (i - 36), 12)
    else if i < 41 then Code(16352 + (i - 40), 14)
    else if i < 43 then Code(32706 + (i - 41), 15)
    else if i < 162 then Code(65416 + (i - 43), 16)
    else NONE
  }

  /** Where a code of the table comes in the list. */
  function UvAcPlace(c: Code): int {
    match c.size
    case 2 => c.value case 3 => c.value - 2 case 4 => c.value - 7 case 5 => c.value - 19 case 6 => c.value - 47
    case 7 => c.value - 107 case 8 => c.value - 230 case 9 => c.value - 480 case 10 => c.value - 987
    case 11 => c.value - 2006 case 12 => c.value - 4048 case 14 => c.value - 16312 case 15 => c.value - 32665
    case 16 => c.value - 65373 case _ => 0
  }

  lemma UvAcHeaderCode(i: nat)
    requires i < 162
    ensures HeaderCode(UvAcHead(), i) == UvAcKnown(i)
  {
    hide CodeAt;
    FourLengths(UvAcCount, i, 1, 0);
    if i >= 5 {
      FourLengths(UvAcCount, i - 5, 5, 24);
    }
    if i >= 20 {
      FourLengths(UvAcCount, i - 20, 9, 500);
    }
    if i >= 40 {
      FourLengths(UvAcCount, i - 40, 13, 8176);
    }
  }

  lemma UvAcMatchesA(i: nat)
    requires i < 96
    ensures UvAcSymbol(i) < 256 && UvAcCode(UvAcSymbol(i)) == UvAcKnown(i)
  {
  }

  lemma UvAcMatchesB(i: nat)
    requires 96 <= i < 162
    ensures UvAcSymbol(i) < 256 && UvAcCode(UvAcSymbol(i)) == UvAcKnown(i)
  {
  }

  lemma UvAcListedA(s: nat)
    requires s < 128 && UvAcCode(s) != NONE
    ensures var i := UvAcPlace(UvAcCode(s)); 0 <= i < 162 && UvAcSymbol(i) == s
  {
  }

  lemma UvAcListedB(s: nat)
    requires 128 <= s < 256 && UvAcCode(s) != NONE
    ensures var i := UvAcPlace(UvAcCode(s)); 0 <= i < 162 && UvAcSymbol(i) == s
  {
  }

  lemma UvAcUses(s: nat)
    requires s < 256
    ensures UvAcCode(s).size > 0 <==> AcCovered(s)
  {
  }

  lemma UvAcDescribed()
    ensures Describes(UvAcHead(), UvAcTable()) && Fits(UvAcHead())
  {
    hide HeaderCode, UvAcTable, UvAcCode, UvAcKnown, UvAcSymbol, UvAcPlace;
    forall i: nat | i < 162
      ensures UvAcSymbol(i) < 256 && UvAcTable()[UvAcSymbol(i)] == HeaderCode(UvAcHead(), i)
    {
      UvAcHeaderCode(i);
      if i < 96 { UvAcMatchesA(i); } else { UvAcMatchesB(i); }
    }
    forall s: nat | s < 256 && UvAcTable()[s] != NONE
      ensures exists i: nat :: i < 162 && UvAcSymbol(i) == s
    {
      if s < 128 { UvAcListedA(s); } else { UvAcListedB(s); }
      var i: nat := UvAcPlace(UvAcCode(s));
      assert UvAcSymbol(i) == s;
    }
    UvAcLast();
  }

  lemma UvAcLast()
    ensures Fits(UvAcHead())
  {
    hide HeaderCode;
    UvAcHeaderCode(161);
    assert UvAcKnown(161) == Code(65534, 16);
    Powers();
  }

  // ----------------------------------------------------------- main results

  lemma Powers()
    ensures Pow2(8) == 256 && Pow2(9) == 512 && Pow2(10) == 1024 && Pow2(11) == 2048 && Pow2(16) == 65536
  {
    assert Pow2(4) == 16;
    PowAdd(4, 4);
    PowAdd(8, 8);
    assert Pow2(9) == 2 * Pow2(8) && Pow2(10) == 2 * Pow2(9) && Pow2(11) == 2 * Pow2(10);
  }

  /** The tables of a component: the first is luminance, the others chrominance. */
  function WriterTables(component: nat): Tables {
    if component == 0 then Tables(YDcTable(), YAcTable()) else Tables(UvDcTable(), UvAcTable())
  }

  /** The segments at the head of the file. */
  function DcHead(component: nat): Segment { if component == 0 then YDcHead() else UvDcHead() }

  function AcHead(component: nat): Segment { if component == 0 then YAcHead() else UvAcHead() }

  /** Main result: the head of the file describes the tables the blocks are coded with. */
  lemma HeadDescribesTables(component: nat)
    ensures Describes(DcHead(component), WriterTables(component).dc) && Fits(DcHead(component))
    ensures Describes(AcHead(component), WriterTables(component).ac) && Fits(AcHead(component))
  {
    hide Describes, Fits;
    YDcDescribed();
    UvDcDescribed();
    YAcDescribed();
    UvAcDescribed();
  }

  /** The tables have codes for DC categories up to 11, for every run with categories 1 to 10,
    and for the two symbols without a value. */
  predicate AcCovered(s: nat) { s == 0 || s == ZRL || 1 <= s % 16 <= 10 }

  lemma TablesUse(component: nat, s: nat)
    requires s < 256
    ensures Uses(WriterTables(component).dc, s) <==> s < 12
    ensures Uses(WriterTables(component).ac, s) <==> AcCovered(s)
  {
    hide YDcTable, UvDcTable, YAcTable, UvAcTable, YDcCode, UvDcCode, YAcCode, UvAcCode, AcCovered;
    YDcUses(s);
    UvDcUses(s);
    YAcUses(s);
    UvAcUses(s);
  }

  /** What baseline coding provides for: DC differences of 11 bits and AC values of 10. */
  ghost predicate InRange(b: Block, dc: int) {
    -2048 < b[0] - dc < 2048 && forall i | 1 <= i < 64 :: -1024 < b[i] < 1024
  }

  lemma {:induction false} PowGrows(a: nat, b: nat)
    requires a <= b
    ensures Pow2(a) <= Pow2(b)
  {
    if a < b { PowGrows(a, b - 1); }
  }

  lemma CategoryBelow(m: nat, k: nat)
    requires k > 0
    ensures Category(m) <= k <==> m < Pow2(k)
  {
    hide Category, Pow2;
    var n := Category(m);
    if n <= k {
      PowGrows(n, k);
    } else {
      PowGrows(k, n - 1);
    }
  }

  lemma DcCovered(component: nat, diff: int)
    ensures (Category(Magnitude(diff)) <= 16 && Uses(WriterTables(component).dc, Category(Magnitude(diff))))
       <==> -2048 < diff < 2048
  {
    hide WriterTables, Uses, Category, Pow2;
    CategoryBelow(Magnitude(diff), 11);
    Powers();
    var n := Category(Magnitude(diff));
    if n < 256 {
      TablesUse(component, n);
    }
  }

  lemma AcValueCovered(component: nat, run: nat, v: int)
    requires run < 16
    ensures (Category(Magnitude(v)) <= 15 && Uses(WriterTables(component).ac, AcSymbol(run, v))) <==> -1024 < v < 1024
  {
    hide WriterTables, Uses, Category, Pow2;
    CategoryBelow(Magnitude(v), 10);
    Powers();
    var n := Category(Magnitude(v));
    if n <= 15 {
      TablesUse(component, AcSymbol(run, v));
      assert AcSymbol(run, v) % 16 == n;
    }
  }

  /** The tables cover a block exactly when its values are in range. */
  lemma CoversIffInRange(component: nat, b: Block, dc: int)
    ensures Covers(WriterTables(component), b, dc) <==> InRange(b, dc)
  {
    hide WriterTables, Uses, Category, AcSymbol, Magnitude;
    TablesUse(component, 0);
    TablesUse(component, ZRL);
    DcCovered(component, b[0] - dc);
    forall i, run | 1 <= i < 64 && 0 <= run < 16
      ensures (Category(Magnitude(b[i])) <= 15 && Uses(WriterTables(component).ac, AcSymbol(run, b[i])))
           <==> -1024 < b[i] < 1024
    {
      AcValueCovered(component, run, b[i]);
    }
    forall i | 1 <= i < 64 && b[i] != 0 && Covers(WriterTables(component), b, dc)
      ensures -1024 < b[i] < 1024
    {
      CoversAt(WriterTables(component), b, dc, i, 0);
      AcValueCovered(component, 0, b[i]);
    }
  }

  /** Main result: with the writer's own tables a scan can be coded, and so is read back, if and
    only if its quantised values are in range. */
  lemma CodableIffInRange(units: seq<Unit>)
    ensures Codable(WriterTables, units)
       <==> forall i | 0 <= i < |units| :: InRange(units[i].block, Predictor(units[..i], units[i].component))
  {
    hide WriterTables, PrefixFree, Covers, InRange, Predictor, Describes, Fits;
    forall i | 0 <= i < |units|
      ensures PrefixFree(WriterTables(units[i].component).dc) && PrefixFree(WriterTables(units[i].component).ac)
      ensures Covers(WriterTables(units[i].component), units[i].block, Predictor(units[..i], units[i].component))
         <==> InRange(units[i].block, Predictor(units[..i], units[i].component))
    {
      var c := units[i].component;
      HeadDescribesTables(c);
      DescribedIsPrefixFree(DcHead(c), WriterTables(c).dc);
      DescribedIsPrefixFree(AcHead(c), WriterTables(c).ac);
      CoversIffInRange(c, units[i].block, Predictor(units[..i], c));
    }
  }
}
