/** From one scanline to the next: what stays, where V goes, and what the registers hold. */
module LinesOnward {
  import opened PpuModel
  import opened Ticking
  import opened PrefetchTiles
  import opened FrameShown
  import opened TileTaps
  import opened LineShown

  /** Nothing the background and the sprites are drawn from has changed. */
  ghost predicate SameWorld(v: Video, q: Video) {
    && q.board == v.board && q.chrData == v.chrData && q.vram == v.vram && q.palette == v.palette && q.oam == v.oam
    && q.ports == v.ports && q.cart.chr == v.cart.chr && q.cart.mirror == v.cart.mirror
  }

  lemma HeadSameWorld(v: Video)
    requires v.Valid()
    ensures SameWorld(v, Head(v))
  {
    hide Pixel, SpriteLine, FetchLatches, FetchShifters, EndOfLineAddress, ShiftOnce;
  }

  lemma TailSameWorld(v: Video)
    requires v.Valid()
    ensures SameWorld(v, Tail(v))
  {
    hide FrameEvents, VerticalReload, Mmc3Clock, Advance;
    ReloadSameWorld(v);
    var e := if v.Rendering() then VerticalReload(Mmc3Clock(v)) else v;
    EventsSameWorld(e);
    AdvanceSameWorld(FrameEvents(e));
  }

  lemma ReloadSameWorld(v: Video)
    requires v.Valid()
    ensures SameWorld(v, VerticalReload(Mmc3Clock(v)))
  {
  }

  lemma AdvanceSameWorld(v: Video)
    requires v.Valid()
    ensures SameWorld(v, Advance(v))
  {
  }

  lemma EventsSameWorld(v: Video)
    requires v.Valid()
    ensures SameWorld(v, FrameEvents(v))
  {
  }

  lemma {:induction false} TicksSameWorld(v: Video, n: nat)
    requires v.Valid()
    ensures SameWorld(v, Ticks(v, n))
  {
    hide Tick, Head, Tail;
    if n > 0 {
      TicksSameWorld(v, n - 1);
      TickIsHeadTail(Ticks(v, n - 1));
      HeadSameWorld(Ticks(v, n - 1));
      TailSameWorld(Head(Ticks(v, n - 1)));
    }
  }

  /** The tile V points at, in this machine. */
  function TileOf(v: Video, u: bv16): Tile
    requires v.Valid()
  {
    TileAt(v.AsScene(), u)
  }

  lemma SameTiles(v: Video, q: Video, u: bv16)
    requires v.Valid() && q.Valid() && SameWorld(v, q)
    ensures TileOf(q, u) == TileOf(v, u)
  {
    hide TileAt;
    SceneTiles(v.AsScene(), q.AsScene(), u);
  }

  lemma SceneTiles(sc: Scene, other: Scene, u: bv16)
    requires sc.Valid() && other.Valid() && other.bus == sc.bus && other.base == sc.base
    ensures TileAt(other, u) == TileAt(sc, u)
  {
    hide PatternAddress, AttributeAddress, AttributeWord, Bus.Chr, Bus.Nametable;
  }

  // ----------------------------------------------------------------- a line

  /** The left edge of a line of the picture, with two tiles in the registers. */
  ghost predicate AtLeftEdge(v: Video, one: Tile, two: Tile) {
    && v.Valid() && v.Rendering() && v.line.scany < 240 && v.raster.dot == 0
    && v.raster.shifters == Holding(one, two) && Repeats(one.at) && Repeats(two.at)
  }

  /** The scene the line is drawn from. */
  function LineScene(v: Video): (sc: Scene)
    requires v.Valid() && v.line.scany < 240 && v.raster.dot == 0
    ensures sc.Valid() && sc.fbOffset == v.line.scany * 256
  {
    LineReady(v).AsScene()
  }

  /** The picture dots of a line show its tiles. */
  lemma LineDrawn(v: Video, one: Tile, two: Tile)
    requires AtLeftEdge(v, one, two)
    ensures var q, sc := Ticks(v, 256), LineScene(v);
            && q.Valid() && q.Rendering() && q.line.scany == v.line.scany && q.raster.dot == 256
            && (forall x: nat | x < 256 :: ShowsTiles(sc, q.raster, one, two, v.raster.latches.v, x))
            && SameCells(sc, v.raster, q.raster, 0, 256)
            && q.raster.latches.v == Onward(v.raster.latches.v, 32)
  {
    hide Pixels, StartLine, ShowsTiles, SameCells, Holding, LineTile, TileAt, Ticks;
    VisibleTicks(v, 256);
    var l := LineReady(v);
    TilesShown(l.AsScene(), l.raster, one, two, 32);
  }

  /** The dot behind the picture moves V to the next line. */
  lemma LineTurns(v: Video)
    requires v.Valid() && v.Rendering() && v.line.scany < 240 && v.raster.dot == 256
    ensures var q := Tick(v);
            && q.line == v.line && q.raster.dot == 257 && q.Rendering() && q.frames == v.frames
            && q.raster.latches.v == EndOfLineAddress(v.raster.latches.v, v.ports.t)
            && q.raster.colors == v.raster.colors && q.raster.indices == v.raster.indices
  {
    hide EndOfLineAddress;
  }

  /** Up to the prefetch nothing of this changes. */
  lemma IdleDot(v: Video)
    requires v.Valid() && v.Rendering() && v.line.scany < 240 && 257 <= v.raster.dot < 320
    ensures var q := Tick(v);
            q.raster == v.raster.(dot := v.raster.dot + 1) && q.line == v.line && q.Rendering() && q.frames == v.frames
  {
  }

  lemma {:induction false} IdleDots(v: Video, n: nat)
    requires v.Valid() && v.Rendering() && v.line.scany < 240 && v.raster.dot == 257 && n <= 63
    ensures var q := Ticks(v, n);
            q.raster == v.raster.(dot := 257 + n) && q.line == v.line && q.Rendering() && q.frames == v.frames
  {
    hide Tick;
    if n > 0 {
      IdleDots(v, n - 1);
      IdleDot(Ticks(v, n - 1));
    }
  }

  lemma LateDotColors(v: Video)
    requires v.Valid() && v.Rendering() && v.line.scany < 240 && 320 <= v.raster.dot < 341
    ensures Tick(v).raster.colors == v.raster.colors && Tick(v).raster.indices == v.raster.indices
    ensures Tick(v).frames == v.frames && Tick(v).Rendering()
    ensures v.raster.dot < 340 ==> Tick(v).raster.dot == v.raster.dot + 1 && Tick(v).line == v.line
  {
    hide Tick, FetchLatches, FetchShifters, ShiftOnce;
    PrefetchTick(v);
  }

  lemma {:induction false} LateDotsColors(v: Video, n: nat)
    requires v.Valid() && v.Rendering() && v.line.scany < 240 && v.raster.dot == 320 && n <= 21
    ensures Ticks(v, n).raster.colors == v.raster.colors && Ticks(v, n).raster.indices == v.raster.indices
    ensures Ticks(v, n).frames == v.frames && Ticks(v, n).Rendering()
    ensures n < 21 ==> Ticks(v, n).raster.dot == 320 + n && Ticks(v, n).line == v.line
  {
    hide Tick;
    if n > 0 {
      LateDotsColors(v, n - 1);
      LateDotColors(Ticks(v, n - 1));
    }
  }

  /** The rest of a line: V is taken to the next one, and its first two tiles are fetched. */
  lemma LineEnds(v: Video)
    requires v.Valid() && v.Rendering() && v.line.scany < 240 && v.raster.dot == 256
    ensures var q, u := Ticks(v, 85), EndOfLineAddress(v.raster.latches.v, v.ports.t);
            && q.line.scany == v.line.scany + 1 && q.raster.dot == 0 && q.Rendering() && q.frames == v.frames
            && q.raster.shifters == Holding(TileOf(v, u), TileOf(v, NextTile(u)))
            && q.raster.latches.v == NextTile(NextTile(u))
            && q.raster.colors == v.raster.colors && q.raster.indices == v.raster.indices
  {
    hide Tick, Ticks, EndOfLineAddress, NextTile, TileAt, Holding, Video.AsScene, Video.Rendering;
    LineTurns(v);
    OneStep(v);
    var a := Ticks(v, 1);
    IdleDots(a, 63);
    TicksAdd(v, 1, 63);
    var b := Ticks(v, 64);
    NextLineStartsWithTwoTiles(b);
    LateDotsColors(b, 21);
    TicksAdd(v, 64, 21);
    var u := a.raster.latches.v;
    TicksSameWorld(v, 64);
    SameTiles(v, b, u);
    SameTiles(v, b, NextTile(u));
  }

  lemma OneStep(v: Video)
    requires v.Valid()
    ensures Ticks(v, 1) == Tick(v)
  {
    hide Tick;
    assert Ticks(v, 1) == Tick(Ticks(v, 0));
  }
}
