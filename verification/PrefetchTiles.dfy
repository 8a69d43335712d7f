/** What the background prefetch at the end of a visible scanline is for. */
module PrefetchTiles {
  import opened PpuModel
  import opened Ticking

  // ----------------------------------------------------- a tile shifted in

  /** The background tile that V points at, as its row enters the shift registers. */
  datatype Tile = Tile(hi: bv8, lo: bv8, at: bv16)

  function TileAt(sc: Scene, v: bv16): Tile
    requires sc.Valid()
  {
    var a := PatternAddress(sc.base, sc.bus.Nametable(v), v);
    Tile(sc.bus.Chr(a | 8), sc.bus.Chr(a), AttributeWord(sc.bus.Nametable(AttributeAddress(v)), v))
  }

  function PlaneIn(s: bv16, byte: bv8): bv16 { (s << 8) | (byte as bv16) }

  function AttributeIn(s: bv32, at: bv16): bv32 { (s << 16) | (at as bv32) }

  /** The registers when a tile has been shifted in behind what they held. */
  function ShiftedIn(t: Tile, s: Shifters): Shifters {
    Shifters(PlaneIn(s.hi, t.hi), PlaneIn(s.lo, t.lo), AttributeIn(s.at, t.at))
  }

  function EightPlane(s: bv16): bv16 {
    ShiftPlane(ShiftPlane(ShiftPlane(ShiftPlane(ShiftPlane(ShiftPlane(ShiftPlane(ShiftPlane(s))))))))
  }

  function EightAttribute(s: bv32): bv32 {
    ShiftAttribute(ShiftAttribute(ShiftAttribute(ShiftAttribute(
      ShiftAttribute(ShiftAttribute(ShiftAttribute(ShiftAttribute(s))))))))
  }

  lemma PlaneShiftedIn(s: bv16, byte: bv8)
    ensures MergePlane(EightPlane(s), byte) == PlaneIn(s, byte)
  {
  }

  lemma AttributeShiftedIn(s: bv32, at: bv16)
    ensures MergeAttribute(EightAttribute(s), at) == AttributeIn(s, at)
  {
  }

  lemma TileShiftedIn(t: Tile, s: Shifters)
    ensures var four := ShiftOnce(ShiftOnce(ShiftOnce(ShiftOnce(s))));
            var eight := ShiftOnce(ShiftOnce(ShiftOnce(ShiftOnce(four))));
            Shifters(MergePlane(eight.hi, t.hi), MergePlane(eight.lo, t.lo), MergeAttribute(eight.at, t.at))
            == ShiftedIn(t, s)
  {
    hide ShiftPlane, ShiftAttribute, MergePlane, MergeAttribute, PlaneIn, AttributeIn;
    PlaneShiftedIn(s.hi, t.hi);
    PlaneShiftedIn(s.lo, t.lo);
    AttributeShiftedIn(s.at, t.at);
  }

  function SideBySide(one: bv8, two: bv8): bv16 { ((one as bv16) << 8) | (two as bv16) }

  function AttributesBeside(one: bv16, two: bv16): bv32 { ((one as bv32) << 16) | (two as bv32) }

  /** Registers that hold two tiles and nothing else. */
  function Holding(one: Tile, two: Tile): Shifters {
    Shifters(SideBySide(one.hi, two.hi), SideBySide(one.lo, two.lo), AttributesBeside(one.at, two.at))
  }

  lemma PlaneFull(s: bv16, one: bv8, two: bv8)
    ensures PlaneIn(PlaneIn(s, one), two) == SideBySide(one, two)
  {
  }

  lemma AttributeFull(s: bv32, one: bv16, two: bv16)
    ensures AttributeIn(AttributeIn(s, one), two) == AttributesBeside(one, two)
  {
  }

  /** Two tiles shifted in fill the registers, whatever these held. */
  lemma TwoTilesFill(one: Tile, two: Tile, s: Shifters)
    ensures ShiftedIn(two, ShiftedIn(one, s)) == Holding(one, two)
  {
    hide PlaneIn, AttributeIn, SideBySide, AttributesBeside;
    PlaneFull(s.hi, one.hi, two.hi);
    PlaneFull(s.lo, one.lo, two.lo);
    AttributeFull(s.at, one.at, two.at);
  }

  // ------------------------------------------------------- the dots of a tile

  function ShiftTwice(r: Raster): Raster {
    Raster(r.dot + 2, r.latches, ShiftOnce(ShiftOnce(r.shifters)), r.status, r.indices, r.colors)
  }

  /** An even prefetch dot and the odd one behind it, on which something is fetched. */
  function Pair(sc: Scene, r: Raster): (q: Raster)
    requires sc.Valid()
    ensures q.dot == r.dot + 2 && q.status == r.status && q.indices == r.indices && q.colors == r.colors
  {
    FetchAt(sc, r.dot + 1, ShiftTwice(r))
  }

  // What each of the four pairs of a tile does.

  lemma NumberPair(sc: Scene, r: Raster)
    requires sc.Valid() && r.dot % 8 == 0
    ensures Pair(sc, r).latches == r.latches.(ntb := sc.bus.Nametable(r.latches.v))
    ensures Pair(sc, r).shifters == ShiftOnce(ShiftOnce(r.shifters))
  {
    hide ShiftOnce, Bus.Nametable;
    assert (r.dot + 1) % 8 == 1;
  }

  lemma AttributePair(sc: Scene, r: Raster)
    requires sc.Valid() && r.dot % 8 == 2
    ensures Pair(sc, r).latches
         == r.latches.(atb := AttributeWord(sc.bus.Nametable(AttributeAddress(r.latches.v)), r.latches.v))
    ensures Pair(sc, r).shifters == ShiftOnce(ShiftOnce(r.shifters))
  {
    hide ShiftOnce, AttributeAddress, AttributeWord, Bus.Nametable;
    assert (r.dot + 1) % 8 == 3;
  }

  lemma LowPair(sc: Scene, r: Raster)
    requires sc.Valid() && r.dot % 8 == 4
    ensures Pair(sc, r).latches == r.latches.(ptbLo := sc.bus.Chr(PatternAddress(sc.base, r.latches.ntb, r.latches.v)))
    ensures Pair(sc, r).shifters == ShiftOnce(ShiftOnce(r.shifters))
  {
    hide ShiftOnce, PatternAddress, Bus.Chr;
    assert (r.dot + 1) % 8 == 5;
  }

  lemma HighPair(sc: Scene, r: Raster)
    requires sc.Valid() && r.dot % 8 == 6
    ensures Pair(sc, r).latches == r.latches.(v := NextTile(r.latches.v))
    ensures var s := ShiftOnce(ShiftOnce(r.shifters));
            Pair(sc, r).shifters == Shifters(MergePlane(s.hi, PatternHigh(sc.bus, sc.base, r.latches)),
              MergePlane(s.lo, r.latches.ptbLo), MergeAttribute(s.at, r.latches.atb))
  {
    hide ShiftOnce, MergePlane, MergeAttribute, NextTile, PatternHigh;
    assert (r.dot + 1) % 8 == 7;
  }

  /** Four such pairs shift one tile in and move V to the next. */
  lemma FourPairs(sc: Scene, r: Raster)
    requires sc.Valid() && r.dot % 8 == 0
    ensures var q := Pair(sc, Pair(sc, Pair(sc, Pair(sc, r))));
            q.latches.v == NextTile(r.latches.v) && q.shifters == ShiftedIn(TileAt(sc, r.latches.v), r.shifters)
  {
    hide ShiftOnce, ShiftedIn, MergePlane, MergeAttribute, NextTile, PatternAddress, AttributeAddress, AttributeWord,
      Bus.Chr, Bus.Nametable, Pair;
    var r2 := Pair(sc, r);
    var r4 := Pair(sc, r2);
    var r6 := Pair(sc, r4);
    NumberPair(sc, r);
    AttributePair(sc, r2);
    LowPair(sc, r4);
    HighPair(sc, r6);
    TileShiftedIn(TileAt(sc, r.latches.v), r.shifters);
  }

  /** A scanline that is being drawn, at its prefetch dots or behind them. */
  ghost predicate Prefetching(m: Video) {
    m.Valid() && m.Rendering() && m.line.scany < 240 && 320 <= m.raster.dot < 341
  }

  lemma PrefetchTick(m: Video)
    requires Prefetching(m)
    ensures Tick(m) == Advance(Prefetch(m))
  {
    hide FetchLatches, FetchShifters;
  }

  lemma EvenPrefetch(m: Video)
    requires Prefetching(m) && m.raster.dot % 2 == 0
    ensures Prefetch(m).raster
         == if m.raster.dot < 336 then m.raster.(shifters := ShiftOnce(m.raster.shifters)) else m.raster
  {
  }

  /** An even dot only shifts. */
  lemma EvenTick(m: Video)
    requires Prefetching(m) && m.raster.dot % 2 == 0 && m.raster.dot < 336
    ensures Tick(m) == m.(raster := m.raster.(dot := m.raster.dot + 1, shifters := ShiftOnce(m.raster.shifters)))
  {
    hide Tick, FetchLatches, FetchShifters, ShiftOnce;
    PrefetchTick(m);
    EvenPrefetch(m);
  }

  /** An odd one shifts and fetches. */
  lemma OddTick(m: Video)
    requires Prefetching(m) && m.raster.dot < 336
    ensures var r := m.raster.(shifters := ShiftOnce(m.raster.shifters));
            Tick(m) == m.(raster := FetchAt(m.AsScene(), m.raster.dot, r).(dot := m.raster.dot + 1))
  {
    hide Tick, FetchLatches, FetchShifters, ShiftOnce;
    PrefetchTick(m);
  }

  lemma PairIsTicks(m: Video)
    requires Prefetching(m) && m.raster.dot % 2 == 0 && m.raster.dot < 336
    ensures var q := m.(raster := Pair(m.AsScene(), m.raster));
            Ticks(m, 2) == q && q.Valid() && q.AsScene() == m.AsScene() && q.Rendering()
  {
    hide Tick, FetchLatches, FetchShifters, ShiftOnce;
    EvenTick(m);
    OddTick(Tick(m));
    assert Ticks(m, 1) == Tick(Ticks(m, 0)) && Ticks(m, 2) == Tick(Ticks(m, 1));
  }

  lemma TwoPairsAreTicks(m: Video)
    requires Prefetching(m) && m.raster.dot % 4 == 0 && m.raster.dot < 336
    ensures var q := m.(raster := Pair(m.AsScene(), Pair(m.AsScene(), m.raster)));
            Ticks(m, 4) == q && q.Valid() && q.AsScene() == m.AsScene() && q.Rendering()
  {
    hide Ticks, Pair, Video.AsScene, Video.Rendering;
    PairIsTicks(m);
    PairIsTicks(Ticks(m, 2));
    TicksAdd(m, 2, 2);
  }

  /** Eight prefetch dots shift one tile in. */
  lemma TilePrefetched(m: Video)
    requires Prefetching(m) && (m.raster.dot == 320 || m.raster.dot == 328)
    ensures var q, r, t := Ticks(m, 8), m.raster, TileAt(m.AsScene(), m.raster.latches.v);
            && q == m.(raster := q.raster) && q.raster.dot == r.dot + 8 && q.AsScene() == m.AsScene() && q.Rendering()
            && q.raster.latches.v == NextTile(r.latches.v) && q.raster.shifters == ShiftedIn(t, r.shifters)
  {
    hide Ticks, Pair, NextTile, TileAt, ShiftedIn, Video.AsScene, Video.Rendering;
    TwoPairsAreTicks(m);
    TwoPairsAreTicks(Ticks(m, 4));
    TicksAdd(m, 4, 4);
    FourPairs(m.AsScene(), m.raster);
  }

  // ------------------------------------------------------- the end of the line

  /** The dots behind the prefetch leave V and the shift registers alone. */
  lemma LateDot(m: Video)
    requires Prefetching(m) && m.raster.dot >= 336
    ensures Tick(m).raster.latches.v == m.raster.latches.v && Tick(m).raster.shifters == m.raster.shifters
    ensures Tick(m).Rendering()
    ensures if m.raster.dot < 340 then Tick(m).line == m.line && Tick(m).raster.dot == m.raster.dot + 1
            else Tick(m).line == m.line.(scany := m.line.scany + 1) && Tick(m).raster.dot == 0
  {
    hide AttributeWord, Bus.Nametable, Tick;
    PrefetchTick(m);
  }

  lemma {:induction false} LineFinished(m: Video, n: nat)
    requires Prefetching(m) && m.raster.dot == 336 && n <= 5
    ensures var q := Ticks(m, n);
            && (if n < 5 then q.line == m.line && q.raster.dot == 336 + n
                else q.line == m.line.(scany := m.line.scany + 1) && q.raster.dot == 0)
            && q.raster.latches.v == m.raster.latches.v && q.raster.shifters == m.raster.shifters && q.Rendering()
  {
    hide Tick, Video.Rendering;
    if n > 0 {
      LineFinished(m, n - 1);
      LateDot(Ticks(m, n - 1));
    }
  }

  /** Main result: whatever the shift registers held, the next scanline starts with the first
    two tiles of its row in them, side by side, and with V behind these tiles. */
  lemma NextLineStartsWithTwoTiles(m: Video)
    requires m.Valid() && m.Rendering() && m.line.scany < 240 && m.raster.dot == 320
    ensures var q, sc, v := Ticks(m, 21), m.AsScene(), m.raster.latches.v;
            && q.raster.dot == 0 && q.line.scany == m.line.scany + 1 && q.raster.latches.v == NextTile(NextTile(v))
            && q.raster.shifters == Holding(TileAt(sc, v), TileAt(sc, NextTile(v)))
  {
    hide Ticks, TileAt, NextTile, Holding, Video.AsScene, Video.Rendering, ShiftedIn;
    TilePrefetched(m);
    var n := Ticks(m, 8);
    TilePrefetched(n);
    TicksAdd(m, 8, 8);
    LineFinished(Ticks(m, 16), 5);
    TicksAdd(m, 16, 5);
    TwoTilesFill(TileAt(m.AsScene(), m.raster.latches.v), TileAt(m.AsScene(), n.raster.latches.v), m.raster.shifters);
  }
}
