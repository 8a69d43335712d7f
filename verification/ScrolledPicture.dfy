/** The picture is a window into the plane of nametables, at the place T names. */
module ScrolledPicture {
  import opened PpuModel
  import opened Ticking
  import opened SpanBatch
  import opened PrefetchTiles
  import opened FrameShown
  import opened TileTaps
  import opened LineShown
  import opened LinesOnward
  import opened Scrolling
  import opened Plane

  // ------------------------------------------------------------ a plane pixel

  predicate InPlane(p: Place) { p.col < 64 && p.lower < 2 && p.row < 256 }

  lemma {:induction false} RightInPlane(p: Place, n: nat)
    requires InPlane(p)
    ensures InPlane(RightBy(p, n))
  {
    if n > 0 {
      RightInPlane(p, n - 1);
      RightIn(RightBy(p, n - 1).col);
    }
  }

  lemma RightIn(c: bv16)
    ensures Right(c) < 64
  {
  }

  /** The palette entry that line `l`, column `x` of the picture shows when the tile at `p` is at
    the left edge of the line: `fine_x` further right in the plane, and the line's first opaque
    sprite merged over it. */
  function PixelEntry(v: Video, p: Place, l: nat, x: nat): bv8
    requires v.Valid() && InPlane(p) && l < 240 && x < 256
  {
    var n := x + v.ports.fineX as nat;
    RightInPlane(p, n / 8);
    var tile := PlaneTile(v.AsScene(), RightBy(p, n / 8));
    var sprite := if v.ports.mask & 16 != 0 then FirstSprite(v.AsSprites().(scany := l), 0, 64, x) else 0;
    var shade := MergeSprite(sprite, TileColor(tile, PixelOf(n)), TilePalette(tile), 0);
    PaletteEntry(v.palette, shade.color, shade.palette)
  }

  function PixelOf(n: nat): (j: bv8)
    ensures j < 8
  {
    (n % 8) as bv8
  }

  /** Pixel `i` behind `fine_x` of the tiles at two places side by side. */
  lemma PairIsPixel(sc: Scene, p: Place, x: nat, fineX: bv8)
    requires sc.Valid() && sc.fineX == fineX && InPlane(p) && x < 256
    ensures var c, n := x / 8, x + fineX as nat;
            && InPlane(RightBy(p, c)) && InPlane(RightBy(p, c + 1)) && InPlane(RightBy(p, n / 8))
            && var tile := PlaneTile(sc, RightBy(p, n / 8));
               PairEntry(sc, PlaneTile(sc, RightBy(p, c)), PlaneTile(sc, RightBy(p, c + 1)), x, x - 8 * c)
               == EntryAt(sc, x, TileColor(tile, PixelOf(n)), TilePalette(tile))
  {
    hide PlaneTile, EntryAt, TileColor, TilePalette;
    var c, n, i := x / 8, x + fineX as nat, x % 8;
    RightInPlane(p, c);
    RightInPlane(p, c + 1);
    RightInPlane(p, n / 8);
    FineSmall(fineX);
    Pixel8(i, fineX);
    Beside(fineX, i);
    if fineX as nat + i < 8 {
      assert n / 8 == c && n % 8 == fineX as nat + i;
    } else {
      assert n / 8 == c + 1 && n % 8 == fineX as nat + i - 8;
    }
  }

  lemma FineSmall(f: bv8)
    requires f < 8
    ensures f as nat < 8
  {
  }

  lemma Beside(f: bv8, i: nat)
    requires f < 8 && i < 8
    ensures f + (i as bv8) < 8 <==> f as nat + i < 8
    ensures (f as nat + i) as bv8 == f + (i as bv8)
    ensures f as nat + i >= 8 ==> (f as nat + i - 8) as bv8 == f + (i as bv8) - 8
  {
  }

  // ------------------------------------------------------------ places of tiles

  lemma NextPlace(v: bv16)
    requires v < 0x8000
    ensures NextTile(v) < 0x8000 && PlaceOf(NextTile(v)) == RightOf(PlaceOf(v))
  {
    NextTileLaw(v);
    NextSmall(v);
  }

  lemma NextSmall(v: bv16)
    requires v < 0x8000
    ensures NextTile(v) < 0x8000
  {
  }

  lemma {:induction false} OnwardPlace(v: bv16, n: nat)
    requires v < 0x8000
    ensures Onward(v, n) < 0x8000 && PlaceOf(Onward(v, n)) == RightBy(PlaceOf(v), n)
  {
    hide NextTile, PlaceOf;
    if n > 0 {
      OnwardPlace(v, n - 1);
      NextPlace(Onward(v, n - 1));
    }
  }

  lemma {:induction false} OnwardAdd(v: bv16, a: nat, b: nat)
    ensures Onward(v, a + b) == Onward(Onward(v, a), b)
  {
    hide NextTile;
    if b > 0 { OnwardAdd(v, a, b - 1); }
  }

  lemma {:induction false} RightAdd(p: Place, a: nat, b: nat)
    ensures RightBy(p, a + b) == RightBy(RightBy(p, a), b)
  {
    if b > 0 { RightAdd(p, a, b - 1); }
  }

  lemma {:induction false} RightKeepsRow(p: Place, n: nat)
    ensures RightBy(p, n).lower == p.lower && RightBy(p, n).row == p.row
  {
    if n > 0 { RightKeepsRow(p, n - 1); }
  }

  lemma DownPlace(v: bv16, t: bv16)
    requires v < 0x8000 && t < 0x8000
    ensures var q := EndOfLineAddress(v, t); q < 0x8000 && PlaceOf(q) == Below(PlaceOf(v)).(col := Col(t))
  {
    EndOfLineLaw(v, t);
    DownSmall(v, t);
    hide EndOfLineAddress;
  }

  lemma DownSmall(v: bv16, t: bv16)
    requires v < 0x8000 && t < 0x8000
    ensures EndOfLineAddress(v, t) < 0x8000
  {
  }

  /** The tile fetched at V is the tile at V's place. */
  lemma TileOfPlace(v: Video, u: bv16)
    requires v.Valid() && u < 0x8000
    ensures InPlane(PlaceOf(u)) && TileOf(v, u) == PlaneTile(v.AsScene(), PlaceOf(u))
  {
    hide PlaneTile, TileAt, PlaceOf;
    FetchedIsPlane(v.AsScene(), u);
  }

  /** The line's own palette entries. */
  lemma EntryIsPixel(v: Video, p: Place, x: nat)
    requires v.Valid() && v.line.scany < 240 && v.raster.dot == 0 && InPlane(p) && x < 256
    ensures var n := x + v.ports.fineX as nat;
            && InPlane(RightBy(p, n / 8))
            && var tile := PlaneTile(v.AsScene(), RightBy(p, n / 8));
               PixelEntry(v, p, v.line.scany, x)
               == EntryAt(LineScene(v), x, TileColor(tile, PixelOf(n)), TilePalette(tile))
  {
    hide PlaneTile, TileColor, TilePalette, MergeSprite, PaletteEntry, FirstSprite;
    RightInPlane(p, (x + v.ports.fineX as nat) / 8);
    assert v.AsSprites().(scany := v.line.scany) == v.AsSprites();
  }

  lemma SamePlane(sc: Scene, other: Scene, p: Place)
    requires sc.Valid() && other.Valid() && other.bus == sc.bus && other.base == sc.base && InPlane(p)
    ensures PlaneTile(other, p) == PlaneTile(sc, p)
  {
    hide PatternStart, NumberAddress, BlockAddress, Quarter, Repeated, Bus.Chr, Bus.Nametable;
  }

  lemma SamePixel(v: Video, q: Video, p: Place, l: nat, x: nat)
    requires v.Valid() && q.Valid() && SameWorld(v, q) && InPlane(p) && l < 240 && x < 256
    ensures PixelEntry(q, p, l, x) == PixelEntry(v, p, l, x)
  {
    hide PlaneTile, TileColor, TilePalette, MergeSprite, PaletteEntry, FirstSprite;
    var n := x + v.ports.fineX as nat;
    RightInPlane(p, n / 8);
    SamePlane(v.AsScene(), q.AsScene(), RightBy(p, n / 8));
    assert q.AsSprites().(scany := l) == v.AsSprites().(scany := l);
  }

  // ------------------------------------------------------------------- a line

  /** The left edge of a line, with the tile at `p` and its right neighbour in the registers and
    V behind them. */
  ghost predicate AtLine(v: Video, p: Place) {
    && Positioned(v) && InPlane(p) && InPlane(RightOf(p))
    && PlaceOf(v.raster.latches.v) == RightOf(RightOf(p))
    && v.raster.shifters == Holding(PlaneTile(v.AsScene(), p), PlaneTile(v.AsScene(), RightOf(p)))
  }

  /** The left edge of any line. */
  ghost predicate Positioned(v: Video) {
    && v.Valid() && v.Rendering() && v.line.scany <= 240 && v.raster.dot == 0
    && v.raster.latches.v < 0x8000 && v.ports.t < 0x8000
  }

  /** The cell of column `x` on line `l` shows a palette entry. */
  ghost predicate CellShows(v: Video, l: nat, x: nat, entry: bv8)
    requires v.Valid() && l < 240 && x < 256
  {
    && (v.board.pixelOutput ==> v.raster.indices[l * 256 + x] == entry)
    && (v.board.pixelOutput && v.board.rgbaOutput ==> v.raster.colors[l * 256 + x] == v.board.rgb565(entry))
  }

  /** The whole line shows its part of the plane. */
  ghost predicate LineShows(v: Video, q: Video, p: Place, l: nat)
    requires v.Valid() && q.Valid() && InPlane(p) && l < 240
  {
    forall x: nat | x < 256 :: CellShows(q, l, x, PixelEntry(v, p, l, x))
  }

  /** The cells of the other lines are as before. */
  ghost predicate OtherLinesSame(v: Video, q: Video, l: nat)
    requires v.Valid() && q.Valid()
  {
    forall a | 0 <= a < 61440 && !(l * 256 <= a < l * 256 + 256) ::
      q.raster.indices[a] == v.raster.indices[a] && q.raster.colors[a] == v.raster.colors[a]
  }

  // Where a line leaves V and the registers, whatever it began with.

  lemma {:induction false} TilesPass(sc: Scene, r: Raster, n: nat)
    requires sc.Valid() && r.Valid() && r.dot == 0 && n <= 32
    ensures Pixels(sc, r, 8 * n).latches.v == Onward(r.latches.v, n)
  {
    hide Pixels, NextTile, TileFetches, Draws, TileAt, MergePlane, MergeAttribute;
    if n == 0 {
      NoPixels(sc, r);
    } else {
      TilesPass(sc, r, n - 1);
      var p := Pixels(sc, r, 8 * (n - 1));
      BatchIsPixels(sc, p);
      FetchesTile(sc, p.dot, Draws(sc, p, 8));
      PixelsAdd(sc, r, 8 * (n - 1), 8);
    }
  }

  lemma LinePasses(v: Video)
    requires Positioned(v) && v.line.scany < 240
    ensures var q := Ticks(v, 256);
            && q.Valid() && q.Rendering() && q.line.scany == v.line.scany && q.raster.dot == 256 && q.frames == v.frames
            && q.raster.latches.v == Onward(v.raster.latches.v, 32)
  {
    hide Pixels, StartLine, Ticks;
    VisibleTicks(v, 256);
    var l := LineReady(v);
    TilesPass(l.AsScene(), l.raster, 32);
    BeforeEnd(v);
  }

  /** No picture is handed over while a line is drawn. */
  lemma BeforeEnd(v: Video)
    requires v.Valid() && v.line.scany < 240 && v.raster.dot == 0
    ensures Ticks(v, 256).frames == v.frames
  {
    hide Ticks, WillDraw, DrawsAt;
    DotsBefore(v, 0, 256);
  }

  /** The left edge of the next line. */
  function NextEdge(v: Video): Place { Below(PlaceOf(v.raster.latches.v)).(col := Col(v.ports.t)) }

  /** Every line leaves the first two tiles of the next in the registers. */
  lemma LineTurned(v: Video)
    requires Positioned(v) && v.line.scany < 240
    ensures var q := Ticks(v, 341);
            && AtLine(q, NextEdge(v)) && q.line.scany == v.line.scany + 1 && SameWorld(v, q) && q.frames == v.frames
            && q.raster.indices == Ticks(v, 256).raster.indices && q.raster.colors == Ticks(v, 256).raster.colors
  {
    hide Ticks, TileOf, Holding, NextTile, PlaceOf, EndOfLineAddress, PlaneTile, Video.Rendering, Col, RightOf, Below;
    var w, a, q := v.raster.latches.v, Ticks(v, 256), Ticks(v, 341);
    LinePasses(v);
    LineEnds(a);
    TicksAdd(v, 256, 85);
    TicksSameWorld(v, 341);
    TicksSameWorld(a, 85);
    TicksSameWorld(v, 256);
    OnwardPlace(w, 32);
    var down := EndOfLineAddress(Onward(w, 32), v.ports.t);
    DownPlace(Onward(w, 32), v.ports.t);
    BelowRight(PlaceOf(w), 32, v.ports.t);
    NextPlace(down);
    NextPlace(NextTile(down));
    EdgeHolds(a, q, down);
  }

  lemma BelowRight(p: Place, n: nat, t: bv16)
    ensures Below(RightBy(p, n)).(col := Col(t)) == Below(p).(col := Col(t))
  {
    hide Col, RightBy, RowBelow, TableBelow;
    RightKeepsRow(p, n);
  }

  lemma EdgeHolds(a: Video, q: Video, u: bv16)
    requires a.Valid() && q.Valid() && SameWorld(a, q) && u < 0x8000 && NextTile(u) < 0x8000
    requires PlaceOf(NextTile(u)) == RightOf(PlaceOf(u))
    requires q.raster.shifters == Holding(TileOf(a, u), TileOf(a, NextTile(u)))
    ensures InPlane(PlaceOf(u)) && InPlane(RightOf(PlaceOf(u)))
    ensures q.raster.shifters
         == Holding(PlaneTile(q.AsScene(), PlaceOf(u)), PlaneTile(q.AsScene(), RightOf(PlaceOf(u))))
  {
    hide TileOf, Holding, NextTile, PlaceOf, PlaneTile, RightOf, SameWorld;
    SameTiles(a, q, u);
    SameTiles(a, q, NextTile(u));
    TileOfPlace(q, u);
    TileOfPlace(q, NextTile(u));
  }

  // ----------------------------------------------------------- what a line shows

  lemma TilesRepeat(v: Video, p: Place)
    requires v.Valid() && InPlane(p)
    ensures Repeats(PlaneTile(v.AsScene(), p).at)
  {
    hide Quarter, PatternStart, NumberAddress, BlockAddress, Bus.Chr, Bus.Nametable;
  }

  /** Tile `c` of the line stands `c` places right of its edge. */
  lemma LineTileIsPlane(v: Video, p: Place, c: nat)
    requires AtLine(v, p) && v.line.scany < 240
    ensures InPlane(RightBy(p, c))
    ensures LineTile(LineScene(v), PlaneTile(v.AsScene(), p), PlaneTile(v.AsScene(), RightOf(p)), v.raster.latches.v, c)
         == PlaneTile(v.AsScene(), RightBy(p, c))
  {
    hide PlaneTile, PlaceOf, TileAt, NextTile, RightOf, Onward;
    var sc := LineScene(v);
    RightInPlane(p, c);
    RightFirst(p);
    if c < 2 {
      LineTileIs(sc, PlaneTile(v.AsScene(), p), PlaneTile(v.AsScene(), RightOf(p)), v.raster.latches.v, 0);
    } else {
      LineTileIs(sc, PlaneTile(v.AsScene(), p), PlaneTile(v.AsScene(), RightOf(p)), v.raster.latches.v, c - 2);
      OnwardPlace(v.raster.latches.v, c - 2);
      RightAdd(p, 2, c - 2);
      TileOfPlace(v, Onward(v.raster.latches.v, c - 2));
      SceneTiles(v.AsScene(), sc, Onward(v.raster.latches.v, c - 2));
    }
  }

  lemma RightFirst(p: Place)
    ensures RightBy(p, 0) == p && RightBy(p, 1) == RightOf(p) && RightBy(p, 2) == RightOf(RightOf(p))
  {
    hide RightOf;
    assert RightBy(p, 1) == RightOf(RightBy(p, 0)) && RightBy(p, 2) == RightOf(RightBy(p, 1));
  }

  lemma CellIs(v: Video, r: Raster, p: Place, x: nat)
    requires AtLine(v, p) && v.line.scany < 240 && r.Valid() && x < 256
    requires var one, two := PlaneTile(v.AsScene(), p), PlaneTile(v.AsScene(), RightOf(p));
             ShowsTiles(LineScene(v), r, one, two, v.raster.latches.v, x)
    ensures Shows(LineScene(v), r, x, PixelEntry(v, p, v.line.scany, x))
  {
    hide PlaneTile, LineTile, PairEntry, EntryAt, Shows, RightOf, RightBy;
    var c := x / 8;
    LineTileIsPlane(v, p, c);
    LineTileIsPlane(v, p, c + 1);
    PairIsPixel(LineScene(v), p, x, v.ports.fineX);
    EntryIsPixel(v, p, x);
    SamePlane(v.AsScene(), LineScene(v), RightBy(p, c));
    SamePlane(v.AsScene(), LineScene(v), RightBy(p, c + 1));
    SamePlane(v.AsScene(), LineScene(v), RightBy(p, (x + v.ports.fineX as nat) / 8));
  }

  /** The line at whose left edge `p` is shows the plane from there. */
  lemma LineIsPlane(v: Video, p: Place)
    requires AtLine(v, p) && v.line.scany < 240
    ensures LineShows(v, Ticks(v, 341), p, v.line.scany) && OtherLinesSame(v, Ticks(v, 341), v.line.scany)
  {
    hide Ticks, PlaneTile, Holding, RightOf, PixelEntry, PlaceOf, TileAt;
    var one, two, sc := PlaneTile(v.AsScene(), p), PlaneTile(v.AsScene(), RightOf(p)), LineScene(v);
    TilesRepeat(v, p);
    TilesRepeat(v, RightOf(p));
    LineDrawn(v, one, two);
    LineTurned(v);
    var a, q := Ticks(v, 256), Ticks(v, 341);
    forall x: nat | x < 256
      ensures CellShows(q, v.line.scany, x, PixelEntry(v, p, v.line.scany, x))
    {
      assert ShowsTiles(sc, a.raster, one, two, v.raster.latches.v, x);
      CellIs(v, a.raster, p, x);
      CellThere(v, a, q, x, PixelEntry(v, p, v.line.scany, x));
    }
  }

  lemma CellThere(v: Video, a: Video, q: Video, x: nat, entry: bv8)
    requires v.Valid() && a.Valid() && q.Valid() && v.line.scany < 240 && v.raster.dot == 0 && x < 256
    requires q.raster.indices == a.raster.indices && q.raster.colors == a.raster.colors && SameWorld(v, q)
    requires Shows(LineScene(v), a.raster, x, entry)
    ensures CellShows(q, v.line.scany, x, entry)
  {
    hide SpriteLine;
  }
}
