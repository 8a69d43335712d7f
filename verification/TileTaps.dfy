/** A pixel of a line is a pixel of one of two tiles that stand side by side in the shift
  registers.
 */
module TileTaps {
  import opened PpuModel
  import opened SpanBatch
  import opened PrefetchTiles

  /** Bits of the two planes: the colour of pixel `j` of a tile, from the left. */
  function TileColor(t: Tile, j: bv8): bv8
    requires j < 8
  {
    (((t.hi >> (7 - j)) & 1) << 1) | ((t.lo >> (7 - j)) & 1)
  }

  /** The palette of a tile, as bits 2 and 3. */
  function TilePalette(t: Tile): bv8 { ((t.at & 3) << 2) as bv8 }

  /** Pixel `k` of two tiles side by side. */
  function PairColor(one: Tile, two: Tile, k: bv8): bv8
    requires k < 16
  {
    if k < 8 then TileColor(one, k) else TileColor(two, k - 8)
  }

  function PairPalette(one: Tile, two: Tile, k: bv8): bv8 { if k < 8 then TilePalette(one) else TilePalette(two) }

  /** The attribute of a fetched tile repeats its two bits. */
  predicate Repeats(at: bv16) { at == 0 || at == 0x5555 || at == 0xaaaa || at == 0xffff }

  lemma FetchedRepeats(sc: Scene, v: bv16)
    requires sc.Valid()
    ensures Repeats(TileAt(sc, v).at)
  {
    hide Bus.Nametable, Bus.Chr, PatternAddress, AttributeAddress;
    WordRepeats(sc.bus.Nametable(AttributeAddress(v)), v);
  }

  lemma WordRepeats(byte: bv8, v: bv16)
    ensures Repeats(AttributeWord(byte, v))
  {
    FourWords(((byte >> AttributeShift(v)) & 3) as bv16);
  }

  lemma FourWords(a: bv16)
    requires a < 4
    ensures Repeats(a * 0x5555)
  {
  }

  // ------------------------------------------------------------------ the taps

  /** Colour and palette tapped `k` bits below the top. */
  function TapColor(s: Shifters, k: bv8): bv8
    requires k < 16
  {
    ((((s.hi >> (15 - k)) & 1) << 1) | ((s.lo >> (15 - k)) & 1)) as bv8
  }

  function TapPalette(s: Shifters, k: bv8): bv8
    requires k < 15
  {
    ((s.at >> (28 - 2 * k)) & 12) as bv8
  }

  lemma TapsAre(s: Shifters, fineX: bv8)
    requires fineX < 8
    ensures BackgroundColor(s, fineX) == TapColor(s, fineX) && BackgroundPalette(s, fineX) == TapPalette(s, fineX)
  {
  }

  lemma ShiftedTaps(s: Shifters, k: bv8)
    requires k < 14
    ensures TapColor(ShiftOnce(s), k) == TapColor(s, k + 1) && TapPalette(ShiftOnce(s), k) == TapPalette(s, k + 1)
  {
  }

  lemma HeldColor(one: Tile, two: Tile, k: bv8)
    requires k < 16
    ensures TapColor(Holding(one, two), k) == PairColor(one, two, k)
  {
  }

  lemma HeldPalette(one: Tile, two: Tile, k: bv8)
    requires k < 15 && Repeats(one.at) && Repeats(two.at)
    ensures TapPalette(Holding(one, two), k) == PairPalette(one, two, k)
  {
  }

  // ------------------------------------------------------------- eight pixels

  function ShiftBy(s: Shifters, n: nat): Shifters { if n == 0 then s else ShiftOnce(ShiftBy(s, n - 1)) }

  lemma NextNumber(i: nat)
    requires 0 < i < 8
    ensures (i - 1) as bv8 < 7 && (i - 1) as bv8 + 1 == i as bv8
  {
  }

  lemma {:induction false} TapsBehind(s: Shifters, i: nat, j: bv8, k: bv8)
    requires i < 8 && j == i as bv8 && k < 15 - j && j < 8
    ensures TapColor(ShiftBy(s, i), k) == TapColor(s, k + j) && TapPalette(ShiftBy(s, i), k) == TapPalette(s, k + j)
  {
    hide TapColor, TapPalette, ShiftOnce;
    if i > 0 {
      NextNumber(i);
      ShiftedTaps(ShiftBy(s, i - 1), k);
      TapsBehind(s, i - 1, j - 1, k + 1);
    }
  }

  /** The palette entry of screen column `x` over this background. */
  function EntryAt(sc: Scene, x: nat, color: bv8, palette: bv8): bv8
    requires sc.Valid() && x < 256
  {
    var shade := MergeSprite(if sc.spritesOn then sc.sprites[x] else 0, color, palette, 0);
    PaletteEntry(sc.palette, shade.color, shade.palette)
  }

  /** Column `x` of the row shows this palette entry, as far as output is switched on. */
  ghost predicate Shows(sc: Scene, r: Raster, x: nat, entry: bv8)
    requires sc.Valid() && r.Valid() && x < 256
  {
    && (sc.bus.board.pixelOutput ==> r.indices[sc.fbOffset + x] == entry)
    && (sc.bus.board.pixelOutput && sc.bus.board.rgbaOutput ==> r.colors[sc.fbOffset + x] == sc.bus.board.rgb565(entry))
  }

  /** The cells outside columns `from` to `to` - 1 of the row are as before. */
  ghost predicate SameCells(sc: Scene, r: Raster, q: Raster, from: nat, to: nat)
    requires r.Valid() && q.Valid()
  {
    forall a | 0 <= a < 61440 && !(sc.fbOffset + from <= a < sc.fbOffset + to) ::
      q.indices[a] == r.indices[a] && q.colors[a] == r.colors[a]
  }

  lemma DrawShows(sc: Scene, r: Raster)
    requires sc.Valid() && r.Valid() && r.dot < 256
    ensures var q := Draw(sc, r);
            && Shows(sc, q, r.dot, EntryAt(sc, r.dot, BackgroundColor(r.shifters, sc.fineX),
                                           BackgroundPalette(r.shifters, sc.fineX)))
            && SameCells(sc, r, q, r.dot, r.dot + 1) && q.shifters == ShiftOnce(r.shifters)
  {
    hide BackgroundColor, BackgroundPalette, PaletteEntry, ShiftOnce;
  }

  /** The entry of pixel `i` behind `fine_x` of two tiles side by side. */
  function PairEntry(sc: Scene, one: Tile, two: Tile, x: nat, i: nat): bv8
    requires sc.Valid() && x < 256 && i < 8
  {
    Pixel8(i, sc.fineX);
    EntryAt(sc, x, PairColor(one, two, sc.fineX + (i as bv8)), PairPalette(one, two, sc.fineX + (i as bv8)))
  }

  lemma Pixel8(i: nat, fineX: bv8)
    requires i < 8 && fineX < 8
    ensures i as bv8 < 8 && fineX + (i as bv8) < 15 && fineX < 15 - (i as bv8)
  {
  }

  /** Column `x` shows its pixel of two tiles that were side by side at column `from`. */
  ghost predicate ShowsPair(sc: Scene, r: Raster, one: Tile, two: Tile, from: nat, x: nat)
    requires sc.Valid() && r.Valid() && from <= x < from + 8 && x < 256
  {
    Shows(sc, r, x, PairEntry(sc, one, two, x, x - from))
  }

  /** Up to eight draws from two tiles. */
  lemma {:induction false} DrawsShow(sc: Scene, r: Raster, one: Tile, two: Tile, n: nat)
    requires sc.Valid() && r.Valid() && r.dot + n <= 256 && n <= 8
    requires r.shifters == Holding(one, two) && Repeats(one.at) && Repeats(two.at)
    ensures var q := Draws(sc, r, n);
            && q.shifters == ShiftBy(r.shifters, n) && SameCells(sc, r, q, r.dot, r.dot + n)
            && forall x: nat | r.dot <= x < r.dot + n :: ShowsPair(sc, q, one, two, r.dot, x)
  {
    hide Draw, Holding, ShiftOnce, PairEntry;
    if n > 0 {
      DrawsShow(sc, r, one, two, n - 1);
      var p := Draws(sc, r, n - 1);
      DrawShows(sc, p);
      EntryIs(sc, one, two, p.dot, n - 1);
      forall x: nat | r.dot <= x < r.dot + n
        ensures ShowsPair(sc, Draws(sc, r, n), one, two, r.dot, x)
      {
        if x < p.dot {
          assert ShowsPair(sc, p, one, two, r.dot, x);
          StaysShown(sc, p, Draw(sc, p), p.dot, p.dot + 1, x, PairEntry(sc, one, two, x, x - r.dot));
        }
      }
    }
  }

  lemma StaysShown(sc: Scene, r: Raster, q: Raster, from: nat, to: nat, x: nat, entry: bv8)
    requires sc.Valid() && r.Valid() && q.Valid() && SameCells(sc, r, q, from, to)
    requires x < 256 && !(from <= x < to) && Shows(sc, r, x, entry)
    ensures Shows(sc, q, x, entry)
  {
  }

  lemma EntryIs(sc: Scene, one: Tile, two: Tile, x: nat, i: nat)
    requires sc.Valid() && x < 256 && i < 8 && Repeats(one.at) && Repeats(two.at)
    ensures var s := ShiftBy(Holding(one, two), i);
            EntryAt(sc, x, BackgroundColor(s, sc.fineX), BackgroundPalette(s, sc.fineX))
            == PairEntry(sc, one, two, x, i)
  {
    hide EntryAt, BackgroundColor, BackgroundPalette, TapColor, TapPalette, PairColor, PairPalette, Holding;
    var s, k := ShiftBy(Holding(one, two), i), sc.fineX + (i as bv8);
    Pixel8(i, sc.fineX);
    TapsAre(s, sc.fineX);
    TapsBehind(Holding(one, two), i, i as bv8, sc.fineX);
    HeldColor(one, two, k);
    HeldPalette(one, two, k);
  }
}
