/** Eight dots drawn first and fetched afterwards come to the same as eight dots in turn. */
module SpanBatch {
  import opened PpuModel
  import opened Ticking

  function Draws(sc: Scene, r: Raster, n: nat): (q: Raster)
    requires sc.Valid() && r.Valid() && r.dot + n <= 256
    ensures q.Valid() && q.dot == r.dot + n && q.latches == r.latches
  {
    if n == 0 then r else Draw(sc, Draws(sc, r, n - 1))
  }

  /** The four fetches of a tile, as the batch makes them. */
  function TileFetches(sc: Scene, at: nat, r: Raster): (q: Raster)
    requires sc.Valid()
    ensures q.dot == r.dot && q.status == r.status && q.indices == r.indices && q.colors == r.colors
  {
    FetchAt(sc, at + 7, FetchAt(sc, at + 5, FetchAt(sc, at + 3, FetchAt(sc, at + 1, r))))
  }

  /** Before the last dot of a tile a fetch only fills latches, which drawing ignores. */
  lemma DrawIgnoresFetch(sc: Scene, d: nat, r: Raster)
    requires sc.Valid() && r.Valid() && r.dot < 256 && d % 8 != 7
    ensures Draw(sc, FetchAt(sc, d, r)) == FetchAt(sc, d, Draw(sc, r))
  {
    hide Draw, FetchLatches;
    DrawIgnoresLatches(sc, r, FetchLatches(sc.bus, sc.base, d, r.latches));
  }

  lemma DrawIgnoresLatches(sc: Scene, r: Raster, l: Latches)
    requires sc.Valid() && r.Valid() && r.dot < 256
    ensures Draw(sc, r.(latches := l)) == Draw(sc, r).(latches := l)
  {
    hide MergeSprite, BackgroundColor, BackgroundPalette, PaletteEntry, ShiftOnce;
  }

  lemma EvenFetch(sc: Scene, d: nat, r: Raster)
    requires sc.Valid() && d % 2 == 0
    ensures FetchAt(sc, d, r) == r
  {
  }

  lemma TwoPixels(sc: Scene, r: Raster)
    requires sc.Valid() && r.Valid() && r.dot + 2 <= 256 && r.dot % 2 == 0
    ensures Pixels(sc, r, 2) == FetchAt(sc, r.dot + 1, Draws(sc, r, 2))
  {
    hide Draw, FetchAt;
    EvenFetch(sc, r.dot, Draw(sc, r));
    assert Pixels(sc, r, 1) == Pixel(sc, Pixels(sc, r, 0));
    assert Draws(sc, r, 1) == Draw(sc, Draws(sc, r, 0));
  }

  lemma {:induction false} DrawsIgnoreFetch(sc: Scene, d: nat, r: Raster, n: nat)
    requires sc.Valid() && r.Valid() && r.dot + n <= 256 && d % 8 != 7
    ensures FetchAt(sc, d, r).Valid()
    ensures Draws(sc, FetchAt(sc, d, r), n) == FetchAt(sc, d, Draws(sc, r, n))
  {
    assert FetchAt(sc, d, r).Valid();
    hide Draw, FetchAt;
    if n > 0 {
      DrawsIgnoreFetch(sc, d, r, n - 1);
      DrawIgnoresFetch(sc, d, Draws(sc, r, n - 1));
    }
  }

  lemma {:induction false} DrawsAdd(sc: Scene, r: Raster, a: nat, b: nat)
    requires sc.Valid() && r.Valid() && r.dot + a + b <= 256
    ensures Draws(sc, r, a + b) == Draws(sc, Draws(sc, r, a), b)
  {
    hide Draw;
    if b > 0 { DrawsAdd(sc, r, a, b - 1); }
  }

  /** Two fetches past a run of draws. */
  lemma DrawsIgnoreFetches(sc: Scene, d: nat, r: Raster, n: nat)
    requires sc.Valid() && r.Valid() && r.dot + n <= 256 && d % 8 != 7 && (d + 2) % 8 != 7
    ensures FetchAt(sc, d + 2, FetchAt(sc, d, r)).Valid()
    ensures Draws(sc, FetchAt(sc, d + 2, FetchAt(sc, d, r)), n) == FetchAt(sc, d + 2, FetchAt(sc, d, Draws(sc, r, n)))
  {
    DrawsIgnoreFetch(sc, d, r, n);
    DrawsIgnoreFetch(sc, d + 2, FetchAt(sc, d, r), n);
    hide Draws, FetchAt;
  }

  lemma FourPixels(sc: Scene, r: Raster)
    requires sc.Valid() && r.Valid() && r.dot + 4 <= 256 && r.dot % 4 == 0
    ensures Pixels(sc, r, 4) == FetchAt(sc, r.dot + 3, FetchAt(sc, r.dot + 1, Draws(sc, r, 4)))
  {
    hide FetchAt, Draws, Pixels;
    TwoPixels(sc, r);
    PixelsAdd(sc, r, 2, 2);
    TwoPixels(sc, Pixels(sc, r, 2));
    DrawsIgnoreFetch(sc, r.dot + 1, Draws(sc, r, 2), 2);
    DrawsAdd(sc, r, 2, 2);
  }

  lemma BatchIsPixels(sc: Scene, r: Raster)
    requires sc.Valid() && r.Valid() && r.dot + 8 <= 256 && r.dot % 8 == 0
    ensures TileFetches(sc, r.dot, Draws(sc, r, 8)) == Pixels(sc, r, 8)
  {
    hide FetchAt, Draws, Pixels;
    FourPixels(sc, r);
    PixelsAdd(sc, r, 4, 4);
    FourPixels(sc, Pixels(sc, r, 4));
    DrawsIgnoreFetches(sc, r.dot + 1, Draws(sc, r, 4), 4);
    DrawsAdd(sc, r, 4, 4);
  }
}
