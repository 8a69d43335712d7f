/** The plane of four nametables as the programmer sees it, and the places a picture passes. */
module Plane {
  import opened PpuModel
  import opened Ticking
  import opened PrefetchTiles
  import opened Scrolling
  import opened LineShown

  /** A column of tiles from 0 to 63, the lower pair of nametables or the upper one, and a line
    of the nametable from 0 to 255. */
  datatype Place = Place(col: bv16, lower: bv16, row: bv16)

  function PlaceOf(v: bv16): Place { Place(Col(v), Lower(v), RowIn(v)) }

  function RightOf(p: Place): Place { p.(col := Right(p.col)) }

  /** A line down: behind line 239 the other pair of nametables begins, behind line 255 the same. */
  function Below(p: Place): Place { Place(p.col, TableBelow(p.lower, p.row), RowBelow(p.row)) }

  function RowBelow(row: bv16): bv16 { if row == 239 || row == 255 then 0 else row + 1 }

  function TableBelow(lower: bv16, row: bv16): bv16 { if row == 239 then lower ^ 1 else lower }

  function RightBy(p: Place, n: nat): Place { if n == 0 then p else RightOf(RightBy(p, n - 1)) }

  function DownBy(p: Place, n: nat): Place { if n == 0 then p else Below(DownBy(p, n - 1)) }

  // --------------------------------------------------------------- the tiles

  /** The tile at a place: its number stands in the nametable, row by row of 32, its palette in
    the 64 bytes behind these, two bits for each quarter of a block of four by four tiles;
    the pattern table has 16 bytes for a tile, eight for each plane. */
  function PlaneTile(sc: Scene, p: Place): Tile
    requires sc.Valid() && p.col < 64 && p.lower < 2 && p.row < 256
  {
    var block := sc.bus.Nametable(BlockAddress(p));
    var address := PatternStart(sc.base, sc.bus.Nametable(NumberAddress(p)), p.row & 7);
    Tile(sc.bus.Chr(address + 8), sc.bus.Chr(address), Repeated(Quarter(block, (p.col >> 1) & 1, (p.row >> 4) & 1)))
  }

  /** Where the tile's number stands, and the byte of its block. */
  function NumberAddress(p: Place): bv16 { TableStart(p.lower, p.col) + 32 * (p.row >> 3) + (p.col & 31) }

  function BlockAddress(p: Place): bv16 {
    TableStart(p.lower, p.col) + 960 + 8 * (p.row >> 5) + ((p.col & 31) >> 2)
  }

  function TableStart(lower: bv16, col: bv16): bv16 { 0x2000 + 1024 * (2 * lower + (col >> 5)) }

  function PatternStart(base: bv16, number: bv8, line: bv16): (a: bv16)
    requires base & 0x1000 == base && line < 8
    ensures a + 8 < 0x2000 && a < 0x2000
  {
    base + 16 * (number as bv16) + line
  }

  /** Two bits of a block's byte: left or right, upper or lower quarter. */
  function Quarter(block: bv8, right: bv16, below: bv16): bv8 {
    if below == 0 then (if right == 0 then block & 3 else (block >> 2) & 3)
    else (if right == 0 then (block >> 4) & 3 else (block >> 6) & 3)
  }

  function Repeated(a: bv8): bv16 { if a == 0 then 0 else if a == 1 then 0x5555 else if a == 2 then 0xaaaa else 0xffff }

  lemma PlaceInPlane(v: bv16)
    ensures var p := PlaceOf(v); p.col < 64 && p.lower < 2 && p.row < 256
  {
  }

  /** Only the lower twelve bits of an address select a cell. */
  lemma SameCell(mirror: bv8, a: bv16, b: bv16)
    requires a & 0xfff == b & 0xfff
    ensures NametableCell(mirror, a) == NametableCell(mirror, b)
  {
  }

  lemma NumberCell(v: bv16)
    ensures NumberAddress(PlaceOf(v)) & 0xfff == v & 0xfff
  {
  }

  lemma BlockCell(v: bv16)
    ensures BlockAddress(PlaceOf(v)) & 0xfff == AttributeAddress(v) & 0xfff
  {
  }

  lemma PatternCell(base: bv16, ntb: bv8, v: bv16)
    requires base & 0x1000 == base && v < 0x8000
    ensures RowIn(v) & 7 < 8
    ensures PatternStart(base, ntb, RowIn(v) & 7) == PatternAddress(base, ntb, v)
    ensures PatternStart(base, ntb, RowIn(v) & 7) + 8 == PatternAddress(base, ntb, v) | 8
  {
  }

  lemma QuarterWord(block: bv8, v: bv16)
    ensures AttributeWord(block, v) == Repeated(Quarter(block, (Col(v) >> 1) & 1, (RowIn(v) >> 4) & 1))
  {
  }

  /** The tile that is fetched is the tile at the place. */
  lemma FetchedIsPlane(sc: Scene, v: bv16)
    requires sc.Valid() && v < 0x8000
    ensures var p := PlaceOf(v); p.col < 64 && p.lower < 2 && p.row < 256 && TileAt(sc, v) == PlaneTile(sc, p)
  {
    hide AttributeWord, Bus.Chr, Bus.Nametable, Quarter, Repeated, PatternStart, NumberAddress, BlockAddress;
    PlaceInPlane(v);
    NumberIs(sc, v);
    BlockIs(sc, v);
    PatternCell(sc.base, sc.bus.Nametable(v), v);
    QuarterWord(sc.bus.Nametable(AttributeAddress(v)), v);
  }

  lemma NumberIs(sc: Scene, v: bv16)
    requires sc.Valid()
    ensures sc.bus.Nametable(NumberAddress(PlaceOf(v))) == sc.bus.Nametable(v)
  {
    hide NametableCell, NumberAddress;
    NumberCell(v);
    SameCell(sc.bus.mirror, NumberAddress(PlaceOf(v)), v);
  }

  lemma BlockIs(sc: Scene, v: bv16)
    requires sc.Valid()
    ensures sc.bus.Nametable(BlockAddress(PlaceOf(v))) == sc.bus.Nametable(AttributeAddress(v))
  {
    hide NametableCell, BlockAddress, AttributeAddress;
    BlockCell(v);
    SameCell(sc.bus.mirror, BlockAddress(PlaceOf(v)), AttributeAddress(v));
  }
}
