/** What a whole scanline shows: the tiles that V passes, side by side. */
module LineShown {
  import opened PpuModel
  import opened Ticking
  import opened SpanBatch
  import opened PrefetchTiles
  import opened TileTaps

  // What each of the four fetches of a tile does.

  lemma NumberFetch(sc: Scene, d: nat, r: Raster)
    requires sc.Valid() && d % 8 == 1
    ensures FetchAt(sc, d, r) == r.(latches := r.latches.(ntb := sc.bus.Nametable(r.latches.v)))
  {
    hide Bus.Nametable;
  }

  lemma AttributeFetch(sc: Scene, d: nat, r: Raster)
    requires sc.Valid() && d % 8 == 3
    ensures FetchAt(sc, d, r)
         == r.(latches := r.latches.(
              atb := AttributeWord(sc.bus.Nametable(AttributeAddress(r.latches.v)), r.latches.v)))
  {
    hide Bus.Nametable, AttributeWord, AttributeAddress;
  }

  lemma LowFetch(sc: Scene, d: nat, r: Raster)
    requires sc.Valid() && d % 8 == 5
    ensures FetchAt(sc, d, r)
         == r.(latches := r.latches.(ptbLo := sc.bus.Chr(PatternAddress(sc.base, r.latches.ntb, r.latches.v))))
  {
    hide Bus.Chr, PatternAddress;
  }

  lemma HighFetch(sc: Scene, d: nat, r: Raster)
    requires sc.Valid() && d % 8 == 7
    ensures var q, s := FetchAt(sc, d, r), r.shifters;
            && q.latches == r.latches.(v := NextTile(r.latches.v))
            && q.shifters == Shifters(MergePlane(s.hi, PatternHigh(sc.bus, sc.base, r.latches)),
                                      MergePlane(s.lo, r.latches.ptbLo), MergeAttribute(s.at, r.latches.atb))
  {
    hide PatternHigh, NextTile, MergePlane, MergeAttribute;
  }

  lemma ThreeFetches(sc: Scene, at: nat, d: Raster)
    requires sc.Valid() && at % 8 == 0
    ensures var q := FetchAt(sc, at + 5, FetchAt(sc, at + 3, FetchAt(sc, at + 1, d)));
            var v, t := d.latches.v, TileAt(sc, d.latches.v);
            && q.shifters == d.shifters && q.latches.v == v && q.latches.ptbLo == t.lo && q.latches.atb == t.at
            && PatternHigh(sc.bus, sc.base, q.latches) == t.hi
  {
    hide PatternAddress, AttributeAddress, AttributeWord, Bus.Chr, Bus.Nametable, FetchAt;
    NumberFetch(sc, at + 1, d);
    var d1 := FetchAt(sc, at + 1, d);
    AttributeFetch(sc, at + 3, d1);
    LowFetch(sc, at + 5, FetchAt(sc, at + 3, d1));
  }

  /** The four fetches of a tile merge it and move V on. */
  lemma FetchesTile(sc: Scene, at: nat, d: Raster)
    requires sc.Valid() && at % 8 == 0
    ensures var q, t := TileFetches(sc, at, d), TileAt(sc, d.latches.v);
            && q.latches.v == NextTile(d.latches.v)
            && q.shifters == Shifters(MergePlane(d.shifters.hi, t.hi), MergePlane(d.shifters.lo, t.lo),
                                      MergeAttribute(d.shifters.at, t.at))
  {
    hide MergePlane, MergeAttribute, NextTile, TileAt, PatternHigh, FetchAt;
    ThreeFetches(sc, at, d);
    HighFetch(sc, at + 7, FetchAt(sc, at + 5, FetchAt(sc, at + 3, FetchAt(sc, at + 1, d))));
  }

  lemma EightBy(s: Shifters)
    ensures var four := ShiftOnce(ShiftOnce(ShiftOnce(ShiftOnce(s))));
            ShiftBy(s, 8) == ShiftOnce(ShiftOnce(ShiftOnce(ShiftOnce(four))))
  {
    hide ShiftOnce;
    assert ShiftBy(s, 1) == ShiftOnce(ShiftBy(s, 0)) && ShiftBy(s, 2) == ShiftOnce(ShiftBy(s, 1));
    assert ShiftBy(s, 3) == ShiftOnce(ShiftBy(s, 2)) && ShiftBy(s, 4) == ShiftOnce(ShiftBy(s, 3));
    assert ShiftBy(s, 5) == ShiftOnce(ShiftBy(s, 4)) && ShiftBy(s, 6) == ShiftOnce(ShiftBy(s, 5));
    assert ShiftBy(s, 7) == ShiftOnce(ShiftBy(s, 6));
  }

  lemma TileBehind(one: Tile, two: Tile, t: Tile)
    ensures ShiftedIn(t, Holding(one, two)) == Holding(two, t)
  {
  }

  /** Eight pixels show two tiles, and the next tile takes the place of the first. */
  lemma EightPixels(sc: Scene, r: Raster, one: Tile, two: Tile)
    requires sc.Valid() && r.Valid() && r.dot + 8 <= 256 && r.dot % 8 == 0
    requires r.shifters == Holding(one, two) && Repeats(one.at) && Repeats(two.at)
    ensures var q := Pixels(sc, r, 8);
            && q.shifters == Holding(two, TileAt(sc, r.latches.v)) && q.latches.v == NextTile(r.latches.v)
            && SameCells(sc, r, q, r.dot, r.dot + 8)
            && forall x: nat | r.dot <= x < r.dot + 8 :: ShowsPair(sc, q, one, two, r.dot, x)
  {
    hide TileFetches, Draws, Pixels, TileAt, Holding, ShiftBy, ShiftedIn, NextTile, PairEntry, ShiftOnce, MergePlane,
      MergeAttribute;
    BatchIsPixels(sc, r);
    DrawsShow(sc, r, one, two, 8);
    var d := Draws(sc, r, 8);
    FetchesTile(sc, r.dot, d);
    EightBy(r.shifters);
    TileShiftedIn(TileAt(sc, d.latches.v), r.shifters);
    TileBehind(one, two, TileAt(sc, d.latches.v));
    var q := Pixels(sc, r, 8);
    forall x: nat | r.dot <= x < r.dot + 8
      ensures ShowsPair(sc, q, one, two, r.dot, x)
    {
      assert ShowsPair(sc, d, one, two, r.dot, x);
      StaysShown(sc, d, q, 0, 0, x, PairEntry(sc, one, two, x, x - r.dot));
    }
  }

  /** `n` tiles on from V. */
  function Onward(v: bv16, n: nat): bv16 { if n == 0 then v else NextTile(Onward(v, n - 1)) }

  /** Tile `c` of a line that began with two tiles in the registers and V behind them. */
  function LineTile(sc: Scene, one: Tile, two: Tile, v: bv16, c: nat): Tile
    requires sc.Valid()
  {
    if c == 0 then one else if c == 1 then two else TileAt(sc, Onward(v, c - 2))
  }

  lemma LineTilesRepeat(sc: Scene, one: Tile, two: Tile, v: bv16, c: nat)
    requires sc.Valid() && Repeats(one.at) && Repeats(two.at)
    ensures Repeats(LineTile(sc, one, two, v, c).at)
  {
    if c >= 2 {
      FetchedRepeats(sc, Onward(v, c - 2));
    }
  }

  /** Column `x` shows its pixel of the tiles of the line. */
  ghost predicate ShowsTiles(sc: Scene, r: Raster, one: Tile, two: Tile, v: bv16, x: nat)
    requires sc.Valid() && r.Valid() && x < 256
  {
    var c := x / 8;
    ShowsPair(sc, r, LineTile(sc, one, two, v, c), LineTile(sc, one, two, v, c + 1), 8 * c, x)
  }

  /** Whole tiles of a line, from its left edge. */
  lemma {:induction false} TilesShown(sc: Scene, r: Raster, one: Tile, two: Tile, n: nat)
    requires sc.Valid() && r.Valid() && r.dot == 0 && n <= 32
    requires r.shifters == Holding(one, two) && Repeats(one.at) && Repeats(two.at)
    ensures var q, v := Pixels(sc, r, 8 * n), r.latches.v;
            && q.shifters == Holding(LineTile(sc, one, two, v, n), LineTile(sc, one, two, v, n + 1))
            && q.latches.v == Onward(v, n) && SameCells(sc, r, q, 0, 8 * n)
            && forall x: nat | x < 8 * n :: ShowsTiles(sc, q, one, two, v, x)
  {
    hide Pixels, TileAt, Holding, NextTile, PairEntry, LineTile, Shows;
    var v := r.latches.v;
    if n == 0 {
      NoPixels(sc, r);
      LineTileIs(sc, one, two, v, 0);
    } else {
      TilesShown(sc, r, one, two, n - 1);
      var p := Pixels(sc, r, 8 * (n - 1));
      var a, b := LineTile(sc, one, two, v, n - 1), LineTile(sc, one, two, v, n);
      LineTilesRepeat(sc, one, two, v, n - 1);
      LineTilesRepeat(sc, one, two, v, n);
      LineTileIs(sc, one, two, v, n - 1);
      EightPixels(sc, p, a, b);
      PixelsAdd(sc, r, 8 * (n - 1), 8);
      var q := Pixels(sc, r, 8 * n);
      forall x: nat | x < 8 * n
        ensures ShowsTiles(sc, q, one, two, v, x)
      {
        if x < 8 * (n - 1) {
          assert ShowsTiles(sc, p, one, two, v, x);
          var c := x / 8;
          StaysShown(sc, p, q, p.dot, p.dot + 8, x,
            PairEntry(sc, LineTile(sc, one, two, v, c), LineTile(sc, one, two, v, c + 1), x, x - 8 * c));
        } else {
          assert x / 8 == n - 1;
          assert ShowsPair(sc, q, a, b, 8 * (n - 1), x);
        }
      }
    }
  }

  lemma NoPixels(sc: Scene, r: Raster)
    requires sc.Valid() && r.Valid()
    ensures r.dot <= 256 ==> Pixels(sc, r, 0) == r
  {
  }

  lemma LineTileIs(sc: Scene, one: Tile, two: Tile, v: bv16, c: nat)
    requires sc.Valid()
    ensures LineTile(sc, one, two, v, 0) == one && LineTile(sc, one, two, v, 1) == two
    ensures LineTile(sc, one, two, v, c + 2) == TileAt(sc, Onward(v, c))
  {
    hide TileAt;
  }
}
