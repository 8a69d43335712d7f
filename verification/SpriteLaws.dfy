/** What a sprite shows, in lines and columns, and which of sprite and background is seen. */
module SpriteLaws {
  import opened PpuModel

  // ------------------------------------------------------------- which is seen

  /** Nothing opaque shows the backdrop, an opaque background its palette's entry, and an
    opaque sprite an entry of the upper palettes, unless it is behind an opaque background. */
  lemma SeenPixel(palette: seq<bv8>, cell: bv8, color: bv8, pal: bv8, status: bv8)
    requires |palette| == 256 && cell < 64 && (cell == 0 || cell & 3 != 0) && color < 4 && pal & 12 == pal
    ensures var shade := MergeSprite(cell, color, pal, status);
            var seen := PaletteEntry(palette, shade.color, shade.palette);
            && (cell == 0 && color == 0 ==> seen == palette[0])
            && (color != 0 && (cell == 0 || cell & 16 != 0) ==> seen == palette[(pal + color) as nat])
            && (cell != 0 && (color == 0 || cell & 16 == 0) ==> seen == palette[(16 + (cell & 15)) as nat])
  {
    SeenBits(cell, color, pal);
  }

  lemma SeenBits(cell: bv8, color: bv8, pal: bv8)
    requires color < 4 && pal & 12 == pal
    ensures pal | color == pal + color && (16 | (cell & 12)) | (cell & 3) == 16 + (cell & 15)
  {
  }

  /** The hit flag rises where sprite 0 is opaque, before or behind anything, and never falls. */
  lemma HitIff(cell: bv8, color: bv8, pal: bv8, status: bv8)
    requires cell == 0 || cell & 3 != 0
    ensures MergeSprite(cell, color, pal, status).status == if cell & 32 != 0 then status | 64 else status
  {
  }

  // ---------------------------------------------------------- where a sprite is

  /** 8 or 16 lines. */
  function Height(e: Sprites): bv16 { if Tall(e.ctrl) then 16 else 8 }

  predicate Tall(ctrl: bv8) { ctrl & 32 != 0 }

  /** Attribute bits 7 and 6. */
  predicate Upturned(attr: bv8) { attr & 128 != 0 }

  predicate Mirrored(attr: bv8) { attr & 64 != 0 }

  /** The sprite reaches the line: it stands one line below its Y byte. */
  predicate OnLine(e: Sprites, i: nat)
    requires e.Valid() && i < 64
  {
    Within(e.scany as bv16, e.oam[4 * i] as bv16, Height(e))
  }

  predicate Within(line: bv16, y: bv16, height: bv16) { y < line <= y + height }

  predicate OverColumn(e: Sprites, i: nat, x: nat)
    requires e.Valid() && i < 64
  {
    e.oam[4 * i + 3] as nat <= x < e.oam[4 * i + 3] as nat + 8
  }

  /** The row of the sprite that is shown, from the bottom when bit 7 turns it over. */
  function ShownRow(e: Sprites, i: nat): bv16
    requires e.Valid() && i < 64
  {
    Turned(RowIn(e.scany as bv16, e.oam[4 * i] as bv16), Upturned(e.oam[4 * i + 2]), Height(e))
  }

  function RowIn(line: bv16, y: bv16): bv16 { line - y - 1 }

  function Turned(row: bv16, over: bool, height: bv16): bv16 { if over then height - 1 - row else row }

  /** The column that is shown, from the right when bit 6 turns it over. */
  function ShownColumn(e: Sprites, i: nat, x: nat): (c: nat)
    requires e.Valid() && i < 64 && OverColumn(e, i, x)
    ensures c < 8
  {
    var c := x - e.oam[4 * i + 3] as nat;
    if Mirrored(e.oam[4 * i + 2]) then 7 - c else c
  }

  /** Where the row's low plane stands: a small sprite's tile in the table that control bit 3
    selects, a tall one's two tiles in the table that bit 0 of the number selects, the lower half
    behind the upper. */
  function RowAddress(ctrl: bv8, number: bv8, row: bv16): bv16 {
    var n := number as bv16;
    if !Tall(ctrl) then (if ctrl & 8 == 0 then 0 else 0x1000) + 16 * n + row
    else 0x1000 * (n & 1) + 16 * (n & 0xfe) + (if row < 8 then row else row + 8)
  }

  lemma RowAddressFits(ctrl: bv8, number: bv8, row: bv16)
    requires row < if Tall(ctrl) then 16 else 8
    ensures RowAddress(ctrl, number, row) + 8 < 0x2000 && RowAddress(ctrl, number, row) < 0x2000
  {
  }

  /** Bit `c` of a byte, from the left. */
  function BitFromLeft(byte: bv8, c: nat): bv8
    requires c < 8
  {
    (byte >> (7 - c as bv8)) & 1
  }

  predicate Inside(row: bv16, height: bv16) { row < height }

  predicate Lines(line: bv16, y: bv16) { line < 262 && y < 256 }

  /** The colour that two planes give column `c`, from the left. */
  function ColorAt(lo: bv8, hi: bv8, c: nat): bv8
    requires c < 8
  {
    2 * BitFromLeft(hi, c) + BitFromLeft(lo, c)
  }

  lemma RowFits(line: bv16, y: bv16, tall: bool, over: bool)
    requires Lines(line, y)
    ensures var height := if tall then 16 else 8;
            && (Inside(RowIn(line, y), height) <==> Within(line, y, height))
            && (Inside(RowIn(line, y), height) ==> Inside(Turned(RowIn(line, y), over, height), height))
  {
    if tall {
      TallRowFits(line, y);
    } else {
      ShortRowFits(line, y);
    }
  }

  lemma ShortRowFits(line: bv16, y: bv16)
    requires line < 262 && y < 256
    ensures RowIn(line, y) < 8 <==> Within(line, y, 8)
    ensures RowIn(line, y) < 8 ==> 7 - RowIn(line, y) < 8
  {
  }

  lemma TallRowFits(line: bv16, y: bv16)
    requires line < 262 && y < 256
    ensures RowIn(line, y) < 16 <==> Within(line, y, 16)
    ensures RowIn(line, y) < 16 ==> 15 - RowIn(line, y) < 16
  {
  }

  lemma LineNumber(scany: nat, y: bv8)
    requires scany < 262
    ensures Lines(scany as bv16, y as bv16)
  {
  }

  lemma RowIs(e: Sprites, i: nat)
    requires e.Valid() && i < 64
    ensures SpriteRow(e, i) == RowIn(e.scany as bv16, e.oam[4 * i] as bv16) && SpriteHeight(e.ctrl) == Height(e)
  {
  }

  lemma ReachesIff(e: Sprites, i: nat)
    requires e.Valid() && i < 64
    ensures Inside(SpriteRow(e, i), Height(e)) <==> OnLine(e, i)
    ensures OnLine(e, i) ==> Inside(ShownRow(e, i), Height(e))
  {
    hide Tall, Upturned, Within, Turned, Inside, RowIn, Lines, SpriteRow, SpriteHeight;
    LineNumber(e.scany, e.oam[4 * i]);
    RowIs(e, i);
    RowFits(e.scany as bv16, e.oam[4 * i] as bv16, Tall(e.ctrl), Upturned(e.oam[4 * i + 2]));
  }

  lemma AddressIs(ctrl: bv8, number: bv8, attr: bv8, row: bv16)
    requires row < SpriteHeight(ctrl)
    ensures var height := SpriteHeight(ctrl);
            SpriteAddress(ctrl, number, attr, row)
            == RowAddress(ctrl, number, if Upturned(attr) then height - 1 - row else row)
  {
  }

  lemma ColorIs(lo: bv8, hi: bv8, attr: bv8, dx: nat)
    requires dx < 8
    ensures var c := if Mirrored(attr) then 7 - dx else dx;
            SpriteColor(lo, hi, attr, dx) == ColorAt(lo, hi, c)
  {
    FromRight(dx);
    PlaneBits(lo, hi, if Mirrored(attr) then dx as bv8 else 7 - dx as bv8);
  }

  lemma FromRight(dx: nat)
    requires dx < 8
    ensures dx as bv8 <= 7 && (7 - dx) as bv8 == 7 - dx as bv8
  {
  }

  lemma PlaneBits(lo: bv8, hi: bv8, offset: bv8)
    requires offset <= 7
    ensures (((hi >> offset) & 1) << 1) | ((lo >> offset) & 1) == 2 * ((hi >> offset) & 1) + ((lo >> offset) & 1)
    ensures 7 - (7 - offset) == offset
  {
  }

  lemma CellBits(color: bv8, attr: bv8, i: nat)
    requires 0 < color < 4
    ensures var cell := CellOf(color, attr, i);
            && cell < 64 && cell & 3 == color && (cell >> 2) & 3 == attr & 3
            && (cell & 16 != 0 <==> attr & 32 != 0) && (cell & 32 != 0 <==> i == 0)
  {
  }

  /** A cell of this colour, with palette, priority and sprite mark. */
  predicate Shows(cell: bv8, color: bv8, attr: bv8, i: nat) {
    if color == 0 then cell == 0
    else && cell < 64 && cell & 3 == color && (cell >> 2) & 3 == attr & 3
         && (cell & 16 != 0 <==> attr & 32 != 0) && (cell & 32 != 0 <==> i == 0)
  }

  lemma CellIs(color: bv8, attr: bv8, i: nat)
    requires color < 4
    ensures Shows(CellOf(color, attr, i), color, attr, i)
  {
    if color != 0 { CellBits(color, attr, i); }
  }

  lemma RowShown(e: Sprites, i: nat)
    requires e.Valid() && i < 64 && OnLine(e, i)
    ensures var number, attr := e.oam[4 * i + 1], e.oam[4 * i + 2];
            && SpriteAddress(e.ctrl, number, attr, SpriteRow(e, i)) == RowAddress(e.ctrl, number, ShownRow(e, i))
            && RowAddress(e.ctrl, number, ShownRow(e, i)) < 0x2000
            && RowAddress(e.ctrl, number, ShownRow(e, i)) + 8 < 0x2000
  {
    hide RowAddress, SpriteAddress, OnLine, RowIn, SpriteRow;
    ReachesIff(e, i);
    RowIs(e, i);
    AddressIs(e.ctrl, e.oam[4 * i + 1], e.oam[4 * i + 2], SpriteRow(e, i));
    RowAddressFits(e.ctrl, e.oam[4 * i + 1], ShownRow(e, i));
  }

  /** Where no sprite stands there is nothing. */
  lemma SpriteAbsent(e: Sprites, i: nat, x: nat)
    requires e.Valid() && i < 64 && x < 256 && !(OnLine(e, i) && OverColumn(e, i, x))
    ensures SpriteCell(e, i, x) == 0
  {
    hide SpriteRow, SpriteAddress, SpriteColor, CellOf, Bus.Chr, OnLine, Height, SpriteHeight;
    ReachesIff(e, i);
    RowIs(e, i);
  }

  lemma SpritePresent(e: Sprites, i: nat, x: nat)
    requires e.Valid() && i < 64 && x < 256 && OnLine(e, i) && OverColumn(e, i, x)
    ensures var attr, dx := e.oam[4 * i + 2], x - e.oam[4 * i + 3] as nat;
            var a := SpriteAddress(e.ctrl, e.oam[4 * i + 1], attr, SpriteRow(e, i));
            SpriteCell(e, i, x) == CellOf(SpriteColor(e.bus.Chr(a), e.bus.Chr(a + 8), attr, dx), attr, i)
  {
    hide SpriteRow, SpriteAddress, SpriteColor, CellOf, Bus.Chr, OnLine, Height, SpriteHeight;
    ReachesIff(e, i);
    RowIs(e, i);
  }

  /** What a sprite shows of itself: the colour its pattern has at the row and column shown. */
  lemma SpriteShows(e: Sprites, i: nat, x: nat)
    requires e.Valid() && i < 64 && x < 256 && OnLine(e, i) && OverColumn(e, i, x)
    ensures var a, c := RowAddress(e.ctrl, e.oam[4 * i + 1], ShownRow(e, i)), ShownColumn(e, i, x);
            && a < 0x2000 && a + 8 < 0x2000
            && Shows(SpriteCell(e, i, x), ColorAt(e.bus.Chr(a), e.bus.Chr(a + 8), c), e.oam[4 * i + 2], i)
  {
    hide SpriteRow, SpriteHeight, RowAddress, SpriteAddress, SpriteColor, ColorAt, CellOf, Bus.Chr, OnLine,
      Height, ShownRow, RowIn, Shows, Tall, Upturned, Mirrored, Inside;
    SpritePresent(e, i, x);
    RowShown(e, i);
    var attr, dx := e.oam[4 * i + 2], x - e.oam[4 * i + 3] as nat;
    var a := RowAddress(e.ctrl, e.oam[4 * i + 1], ShownRow(e, i));
    ColorIs(e.bus.Chr(a), e.bus.Chr(a + 8), attr, dx);
    CellIs(SpriteColor(e.bus.Chr(a), e.bus.Chr(a + 8), attr, dx), attr, i);
  }
}
