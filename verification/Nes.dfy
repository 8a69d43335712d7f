/** The emulator as it is written: global registers and buffers updated in place, with the
  span renderer, the dot-skipping loop and the postponed dots.  Every method is proved
  against the dot-by-dot reference of `PpuModel` and `CpuBus`.
 */
module NesEmulator {
  import opened PpuModel
  import opened Alignment
  import opened Ticking
  import opened SpanBatch
  import opened SpriteEval
  import opened CpuBus
  import opened PostponedDots

  class Nes {
    const board: Board
    const inputs: Inputs

    var cart: CartRegs
    var chrData: nat -> bv8
    const vram: array<bv8>
    const palette: array<bv8>
    const oam: array<bv8>

    var ports: Ports
    var status: bv8
    var latches: Latches
    var shifters: Shifters

    var dot: nat
    var scany: nat
    var fbOffset: nat
    const sprites: array<bv8>
    var hasSprites: bool

    const indices: array<bv8>
    const colors: array<bv16>
    var nmiIrq: bv8
    var frames: seq<seq<bv16>>

    const ram: array<bv8>
    const prgram: array<bv8>
    var keys: bv8
    var clock: nat
    var deferred: nat

    /** The buffers are separate and have the sizes the source declares. */
    ghost predicate Wired() {
      && vram.Length == 2048 && palette.Length == 256 && oam.Length == 256 && sprites.Length == 256
      && indices.Length == 61440 && colors.Length == 61440 && ram.Length == 8192 && prgram.Length == 8192
      && palette != oam && palette != sprites && oam != sprites && ram != prgram
    }

    ghost function AsRaster(): Raster
      reads this`dot, this`latches, this`shifters, this`status, indices, colors
    {
      Raster(dot, latches, shifters, status, indices[..], colors[..])
    }

    /** The picture unit with `r` in place of its raster part. */
    ghost function Around(r: Raster): Video
      reads this`cart, this`chrData, this`ports, this`scany, this`fbOffset, this`hasSprites, this`nmiIrq,
        this`frames, vram, palette, oam, sprites
    {
      Video(board, cart, chrData, vram[..], palette[..], oam[..], ports, r,
            Line(scany, fbOffset, sprites[..], hasSprites), nmiIrq, frames)
    }

    /** The picture unit as a value. */
    ghost function View(): Video
      reads this`dot, this`latches, this`shifters, this`status, this`cart, this`chrData, this`ports, this`scany,
        this`fbOffset, this`hasSprites, this`nmiIrq, this`frames, vram, palette, oam, sprites, indices, colors
    {
      Around(AsRaster())
    }

    /** The whole machine as a value. */
    ghost function Whole(): Machine
      reads this, vram, palette, oam, sprites, indices, colors, ram, prgram
    {
      Machine(View(), ram[..], prgram[..], keys, inputs, clock, deferred)
    }

    ghost predicate Ready()
      reads this`dot, this`latches, this`shifters, this`status, this`cart, this`chrData, this`ports, this`scany,
        this`fbOffset, this`hasSprites, this`nmiIrq, this`frames, vram, palette, oam, sprites, indices, colors
    {
      Wired() && View().Valid()
    }

    ghost predicate Valid()
      reads this, vram, palette, oam, sprites, indices, colors, ram, prgram
    {
      Ready() && Whole().Valid()
    }

    // ------------------------------------------------------------ the span

    ghost function AsBus(): Bus
      reads this`cart, this`chrData, vram
    {
      Bus(board, cart.chr, cart.mirror, chrData, vram[..])
    }

    /** The registers a span is drawn from are those of the scene. */
    ghost predicate Stage(sc: Scene)
      reads this`cart, this`chrData, this`ports, this`fbOffset, vram, palette, sprites
    {
      sc == Scene(AsBus(), ((ports.ctrl as bv16) << 8) & 0x1000, ports.fineX,
                  palette[..], sprites[..], ports.mask & 16 != 0, fbOffset)
    }

    function NametableByte(a: bv16): (b: bv8)
      requires Wired()
      reads this`cart, this`chrData, vram
      ensures b == AsBus().Nametable(a)
    {
      vram[NametableIndex(cart.mirror, a)]
    }

    function ChrByte(a: bv16): (b: bv8)
      requires Wired() && a < 0x2000
      reads this`cart, this`chrData, vram
      ensures b == AsBus().Chr(a)
    {
      chrData(ChrIndex(board, cart.chr, a))
    }

    /** One fetch step on aligned registers. */
    method FetchAligned(base: bv16, at: nat, l: Latches, wide: Wide, ghost sc: Scene, ghost r: Raster)
      returns (l': Latches, wide': Wide)
      requires Wired() && sc.Valid() && Stage(sc) && base == sc.base && r.latches == l
      requires Aligned(wide, r.shifters, sc.fineX)
      modifies {}
      ensures l' == FetchAt(sc, at, r).latches && Aligned(wide', FetchAt(sc, at, r).shifters, sc.fineX)
    {
      hide Aligned, WideMerge, MergePlane, MergeAttribute, NextTile, AttributeAddress, AttributeWord, PatternAddress,
        Bus.Nametable, Bus.Chr;
      l', wide' := l, wide;
      if at % 8 == 1 {
        l' := l.(ntb := NametableByte(l.v));
      } else if at % 8 == 3 {
        l' := l.(atb := AttributeWord(NametableByte(AttributeAddress(l.v)), l.v));
      } else if at % 8 == 5 {
        l' := l.(ptbLo := ChrByte(PatternAddress(base, l.ntb, l.v)));
      } else if at % 8 == 7 {
        var hi := ChrByte(PatternAddress(base, l.ntb, l.v) | 8);
        l' := l.(v := NextTile(l.v));
        wide' := WideMerge(wide, hi, l.ptbLo, l.atb, ports.fineX);
        MergeAligned(wide, r.shifters, ports.fineX, hi, l.ptbLo, l.atb);
      }
    }

    /** Look the colour up and write both frame buffers, as far as output is switched on. */
    method OutputPixel(at: nat, color: bv8, pal: bv8, ghost sc: Scene)
      requires Wired() && sc.Valid() && Stage(sc) && at < 256
      modifies indices, colors
      ensures var entry := PaletteEntry(sc.palette, color, pal);
              && indices[..]
                 == (if board.pixelOutput then old(indices[..])[fbOffset + at := entry] else old(indices[..]))
              && colors[..] == (if board.pixelOutput && board.rgbaOutput
                                then old(colors[..])[fbOffset + at := board.rgb565(entry)] else old(colors[..]))
    {
      if board.pixelOutput {
        var entry := palette[(if color != 0 then pal | color else 0) as nat];
        indices[fbOffset + at] := entry;
        if board.rgbaOutput {
          colors[fbOffset + at] := board.rgb565(entry);
        }
      }
    }

    /** The local copies of a span's registers stand for the raster `r`. */
    ghost predicate Locals(at: nat, l: Latches, wide: Wide, flags: bv8, sc: Scene, r: Raster)
      requires sc.Valid()
      reads indices, colors
    {
      && r.Valid() && r.dot == at && r.latches == l && r.status == flags
      && r.indices == indices[..] && r.colors == colors[..] && Aligned(wide, r.shifters, sc.fineX)
    }

    /** The sprite columns the loop looks at are the ones the scene shows. */
    ghost predicate Shows(useSprites: bool, sc: Scene)
      requires |sc.sprites| == 256
    {
      forall x | 0 <= x < 256 :: (if useSprites then sc.sprites[x] else 0) == if sc.spritesOn then sc.sprites[x] else 0
    }

    /** Tap the aligned registers, merge the sprite column, write the pixel, shift. */
    method DrawDot(at: nat, l: Latches, wide: Wide, flags: bv8, useSprites: bool, ghost sc: Scene, ghost r: Raster)
      returns (wide': Wide, flags': bv8)
      requires Wired() && sc.Valid() && Stage(sc) && at < 256 && Shows(useSprites, sc)
      requires Locals(at, l, wide, flags, sc, r)
      modifies indices, colors
      ensures Locals(at + 1, l, wide', flags', sc, Draw(sc, r))
    {
      hide Aligned, WideColor, WidePalette, WideShift, BackgroundColor, BackgroundPalette, ShiftOnce, MergeSprite,
        PaletteEntry;
      TapsAligned(wide, r.shifters, ports.fineX);
      var sprite := if useSprites then sprites[at] else 0;
      var shade := MergeSprite(sprite, WideColor(wide), WidePalette(wide), flags);
      assert shade == PixelShade(sc, r);
      OutputPixel(at, shade.color, shade.palette, sc);
      wide' := WideShift(wide);
      ShiftAligned(wide, r.shifters, ports.fineX);
      flags' := shade.status;
    }

    /** One dot of the scalar loops. */
    method ScalarDot(base: bv16, at: nat, l: Latches, wide: Wide, flags: bv8, useSprites: bool,
                     ghost sc: Scene, ghost r: Raster)
      returns (l': Latches, wide': Wide, flags': bv8)
      requires Wired() && sc.Valid() && Stage(sc) && base == sc.base && at < 256 && Shows(useSprites, sc)
      requires Locals(at, l, wide, flags, sc, r)
      modifies indices, colors
      ensures Locals(at + 1, l', wide', flags', sc, Pixel(sc, r))
    {
      hide Aligned, Draw, FetchAt, Nes.Stage;
      wide', flags' := DrawDot(at, l, wide, flags, useSprites, sc, r);
      l', wide' := FetchAligned(base, at, l, wide', sc, Draw(sc, r));
    }

    /** The four fetches that end a batch. */
    method FetchTile(base: bv16, at: nat, l: Latches, wide: Wide, ghost sc: Scene, ghost r: Raster)
      returns (l': Latches, wide': Wide)
      requires Wired() && sc.Valid() && Stage(sc) && base == sc.base && r.latches == l
      requires Aligned(wide, r.shifters, sc.fineX)
      modifies {}
      ensures TileFetches(sc, at, r).latches == l' && Aligned(wide', TileFetches(sc, at, r).shifters, sc.fineX)
    {
      hide Aligned, FetchAt, Nes.Stage;
      ghost var d := r;
      l', wide' := FetchAligned(base, at + 1, l, wide, sc, d);
      d := FetchAt(sc, at + 1, d);
      l', wide' := FetchAligned(base, at + 3, l', wide', sc, d);
      d := FetchAt(sc, at + 3, d);
      l', wide' := FetchAligned(base, at + 5, l', wide', sc, d);
      d := FetchAt(sc, at + 5, d);
      l', wide' := FetchAligned(base, at + 7, l', wide', sc, d);
    }

    /** One batch: eight dots drawn, then the four fetches of the tile. */
    method TileBatch(base: bv16, at: nat, l: Latches, wide: Wide, flags: bv8, useSprites: bool,
                     ghost sc: Scene, ghost r: Raster)
      returns (l': Latches, wide': Wide, flags': bv8)
      requires Wired() && sc.Valid() && Stage(sc) && base == sc.base && at + 8 <= 256 && at % 8 == 0
      requires Shows(useSprites, sc) && Locals(at, l, wide, flags, sc, r)
      modifies indices, colors
      ensures Locals(at + 8, l', wide', flags', sc, Pixels(sc, r, 8))
    {
      hide Aligned, Draw, FetchAt, TileFetches, Nes.Stage, Pixels;
      wide', flags' := wide, flags;
      ghost var d := r;
      for pixel := 0 to 8
        invariant Stage(sc) && d == Draws(sc, r, pixel) && Locals(at + pixel, l, wide', flags', sc, d)
      {
        wide', flags' := DrawDot(at + pixel, l, wide', flags', useSprites, sc, d);
        d := Draw(sc, d);
      }
      l', wide' := FetchTile(base, at, l, wide', sc, d);
      BatchIsPixels(sc, r);
    }

    /** A scalar loop: dots one at a time from `from` to `to`. */
    method ScalarRun(base: bv16, from: nat, to: nat, l0: Latches, wide0: Wide, flags0: bv8, useSprites: bool,
                     ghost sc: Scene, ghost r0: Raster)
      returns (l: Latches, wide: Wide, flags: bv8)
      requires Wired() && sc.Valid() && Stage(sc) && base == sc.base && from <= to <= 256
      requires Shows(useSprites, sc) && Locals(from, l0, wide0, flags0, sc, r0)
      modifies indices, colors
      ensures Locals(to, l, wide, flags, sc, Pixels(sc, r0, to - from))
    {
      hide Aligned, Nes.Stage, Pixel;
      l, wide, flags := l0, wide0, flags0;
      for at := from to to
        invariant Stage(sc) && Locals(at, l, wide, flags, sc, Pixels(sc, r0, at - from))
      {
        l, wide, flags := ScalarDot(base, at, l, wide, flags, useSprites, sc, Pixels(sc, r0, at - from));
      }
    }

    /** The batched loop: whole tiles while eight dots are left. */
    method TileRun(base: bv16, from: nat, to: nat, l0: Latches, wide0: Wide, flags0: bv8, useSprites: bool,
                   ghost sc: Scene, ghost r0: Raster)
      returns (at: nat, l: Latches, wide: Wide, flags: bv8)
      requires Wired() && sc.Valid() && Stage(sc) && base == sc.base && from <= to <= 256
        && (from == to || from % 8 == 0)
      requires Shows(useSprites, sc) && Locals(from, l0, wide0, flags0, sc, r0)
      modifies indices, colors
      ensures from <= at <= to && Locals(at, l, wide, flags, sc, Pixels(sc, r0, at - from))
    {
      hide Aligned, Nes.Stage, Pixel;
      at, l, wide, flags := from, l0, wide0, flags0;
      while to - at >= 8
        invariant Stage(sc) && from <= at <= to && (at == to || at % 8 == 0)
        invariant Locals(at, l, wide, flags, sc, Pixels(sc, r0, at - from))
      {
        l, wide, flags := TileBatch(base, at, l, wide, flags, useSprites, sc, Pixels(sc, r0, at - from));
        PixelsAdd(sc, r0, at - from, 8);
        at := at + 8;
      }
    }

    /** The span loops: dots up to a tile boundary, whole tiles, then the rest. */
    method SpanLoops(base: bv16, from: nat, to: nat, l0: Latches, wide0: Wide, flags0: bv8, useSprites: bool,
                     ghost sc: Scene, ghost r0: Raster)
      returns (l: Latches, wide: Wide, flags: bv8)
      requires Wired() && sc.Valid() && Stage(sc) && base == sc.base && from <= to <= 256
      requires Shows(useSprites, sc) && Locals(from, l0, wide0, flags0, sc, r0)
      modifies indices, colors
      ensures Locals(to, l, wide, flags, sc, Pixels(sc, r0, to - from))
    {
      hide Aligned, Nes.Stage, Pixels;
      var prefix := (8 - from % 8) % 8;
      var start := from + if prefix > to - from then to - from else prefix;
      l, wide, flags := ScalarRun(base, from, start, l0, wide0, flags0, useSprites, sc, r0);
      var at;
      at, l, wide, flags := TileRun(base, start, to, l, wide, flags, useSprites, sc, Pixels(sc, r0, start - from));
      PixelsAdd(sc, r0, start - from, at - start);
      l, wide, flags := ScalarRun(base, at, to, l, wide, flags, useSprites, sc, Pixels(sc, r0, at - from));
      PixelsAdd(sc, r0, at - from, to - at);
    }

    /** Copy the local registers of a span back. */
    method StoreRegisters(l: Latches, wide: Wide, flags: bv8, ghost at: nat, ghost sc: Scene, ghost r: Raster)
      requires Wired() && sc.Valid() && Stage(sc) && Locals(at, l, wide, flags, sc, r)
      modifies this`latches, this`shifters, this`status
      ensures AsRaster() == r.(dot := dot)
    {
      hide Aligned, Narrow;
      NarrowUndoes(wide, r.shifters, ports.fineX);
      latches, shifters, status := l, Narrow(wide, ports.fineX), flags;
    }

    /** Draw `n` dots from the aligned registers; `dot` itself is the caller's to move. */
    method RenderSpan(n: nat, base: bv16, useSprites: bool, ghost sc: Scene)
      requires Wired() && sc.Valid() && Stage(sc) && dot + n <= 256 && AsRaster().Valid() && base == sc.base
      requires Shows(useSprites, sc)
      modifies this`latches, this`shifters, this`status, indices, colors
      ensures AsRaster() == Pixels(sc, old(AsRaster()), n).(dot := dot)
    {
      hide Aligned, Widen, Pixels;
      ghost var r0 := AsRaster();
      var l, wide, flags := latches, Widen(shifters, ports.fineX), status;
      WidenAligns(shifters, ports.fineX);
      l, wide, flags := SpanLoops(base, dot, dot + n, l, wide, flags, useSprites, sc, r0);
      StoreRegisters(l, wide, flags, dot + n, sc, Pixels(sc, r0, n));
    }

    // --------------------------------------------------------- the sprite row

    /** The sprites are evaluated from the registers `e`. */
    ghost predicate SpriteStage(e: Sprites)
      reads this`cart, this`chrData, this`ports, this`scany, vram, oam
    {
      e == Sprites(Bus(board, cart.chr, cart.mirror, chrData, vram[..]), oam[..], ports.ctrl, scany)
    }

    /** One column of a sprite: only an empty column takes an opaque pixel. */
    method DrawColumn(x: nat, color: bv8, attr: bv8, i: nat)
      requires Wired() && x < 256 && color < 4 && hasSprites == NonEmpty(sprites[..])
      modifies this`hasSprites, sprites
      ensures sprites[..]
           == if old(sprites[..])[x] == 0 then old(sprites[..])[x := CellOf(color, attr, i)] else old(sprites[..])
      ensures hasSprites == NonEmpty(sprites[..])
    {
      ghost var row := sprites[..];
      if color != 0 && sprites[x] == 0 {
        sprites[x] := CellOf(color, attr, i);
        hasSprites := true;
        assert sprites[..][x] != 0;
      } else {
        assert row[x] == 0 ==> row[x := 0] == row;
      }
    }

    /** The next column of sprite `i`. */
    method DrawNextColumn(i: nat, lo: bv8, hi: bv8, left: nat, x: nat, ghost e: Sprites)
      requires Wired() && e.Valid() && SpriteStage(e) && i < 64 && Patterned(e, i, lo, hi)
      requires left == e.oam[4 * i + 3] as nat && left <= x < left + 8 && x < 256
      requires sprites[..] == RowSoFar(e, i, left, x) && hasSprites == NonEmpty(sprites[..])
      modifies this`hasSprites, sprites
      ensures sprites[..] == RowSoFar(e, i, left, x + 1) && hasSprites == NonEmpty(sprites[..])
    {
      hide FirstSprite, SpriteCell, PatternColor, CellOf, RowSoFar, NonEmpty, SpriteRow, Bus.Chr;
      RowStep(e, i, left, x);
      DrawColumn(x, PatternColor(lo, hi, x - left), oam[4 * i + 2], i);
    }

    /** Columns of sprite `i`, drawn under whatever is already there. */
    method DrawSprite(i: nat, lo: bv8, hi: bv8, ghost e: Sprites)
      requires Wired() && e.Valid() && SpriteStage(e) && i < 64 && Patterned(e, i, lo, hi)
      requires sprites[..] == RowOf(e, i) && hasSprites == NonEmpty(sprites[..])
      modifies this`hasSprites, sprites
      ensures sprites[..] == RowOf(e, i + 1) && hasSprites == NonEmpty(sprites[..])
    {
      hide RowSoFar, RowOf, NonEmpty, SpriteRow, Bus.Chr, FirstSprite, SpriteCell;
      var left := oam[4 * i + 3] as nat;
      var x := left;
      RowStart(e, i, left);
      while x < left + 8 && x < 256
        invariant left <= x <= left + 8 && x <= 256
        invariant sprites[..] == RowSoFar(e, i, left, x) && hasSprites == NonEmpty(sprites[..])
      {
        DrawNextColumn(i, lo, hi, left, x, e);
        x := x + 1;
      }
      RowEnd(e, i, left, x);
    }

    /** Pattern byte of a sprite row, mirrored when its attribute asks for it. */
    method SpritePattern(a: bv16, attr: bv8, ghost e: Sprites) returns (byte: bv8)
      requires e.Valid() && SpriteStage(e) && a < 0x2000
      modifies {}
      ensures byte == if attr & 64 != 0 then MirrorByte(e.bus.Chr(a)) else e.bus.Chr(a)
    {
      byte := chrData(ChrIndex(board, cart.chr, a));
      if attr & 64 != 0 {
        byte := MirrorByte(byte);
      }
    }

    method ClearSprites()
      requires Wired()
      modifies this`hasSprites, sprites
      ensures sprites[..] == seq(256, _ => 0) && !hasSprites
    {
      for x := 0 to 256
        invariant forall k | 0 <= k < x :: sprites[k] == 0
      {
        sprites[x] := 0;
      }
      hasSprites := false;
    }

    /** Fetch the two pattern bytes of the row of sprite `i` that is on the scanline. */
    method SpritePatterns(i: nat, row: bv16, ghost e: Sprites) returns (lo: bv8, hi: bv8)
      requires Wired() && e.Valid() && SpriteStage(e) && i < 64
      requires row == SpriteRow(e, i) && row < SpriteHeight(e.ctrl)
      modifies {}
      ensures Patterned(e, i, lo, hi)
    {
      hide SpriteAddress, MirrorByte, Patterned, SpriteHeight, SpriteRow, Bus.Chr;
      var attr := oam[4 * i + 2];
      var a := SpriteAddress(ports.ctrl, oam[4 * i + 1], attr, row);
      lo := SpritePattern(a, attr, e);
      hi := SpritePattern(a + 8, attr, e);
      PatternsAreCells(e, i, lo, hi);
    }

    /** A sprite that the scanline cuts is fetched and drawn. */
    method DrawHit(i: nat, row: bv16, ghost e: Sprites)
      requires Wired() && e.Valid() && SpriteStage(e) && i < 64
      requires row == SpriteRow(e, i) && !Misses(row, e.ctrl)
      requires sprites[..] == RowOf(e, i) && hasSprites == NonEmpty(sprites[..])
      modifies this`hasSprites, sprites
      ensures sprites[..] == RowOf(e, i + 1) && hasSprites == NonEmpty(sprites[..])
    {
      hide RowOf, NonEmpty, Patterned, SpriteHeight, SpriteRow, Nes.SpriteStage;
      var lo, hi := SpritePatterns(i, row, e);
      DrawSprite(i, lo, hi, e);
    }

    lemma RowOnLine(i: nat, e: Sprites)
      requires Wired() && e.Valid() && SpriteStage(e) && i < 64
      ensures scany < 262 && RowNumber(scany, oam[4 * i]) == SpriteRow(e, i) && ports.ctrl == e.ctrl
    {
    }

    /** One round of the sprite loop. */
    method EvaluateSprite(i: nat, ghost e: Sprites)
      requires Wired() && e.Valid() && SpriteStage(e) && i < 64
      requires sprites[..] == RowOf(e, i) && hasSprites == NonEmpty(sprites[..])
      modifies this`hasSprites, sprites
      ensures sprites[..] == RowOf(e, i + 1) && hasSprites == NonEmpty(sprites[..])
    {
      hide RowOf, NonEmpty, Misses, SpriteRow, RowNumber, Nes.SpriteStage, Sprites.Valid;
      RowOnLine(i, e);
      var row := RowNumber(scany, oam[4 * i]);
      if Misses(row, ports.ctrl) {
        RowSkips(e, i);
      } else {
        DrawHit(i, row, e);
      }
    }

    method EvaluateScanlineSprites(ghost e: Sprites)
      requires Wired() && e.Valid() && SpriteStage(e)
      modifies this`hasSprites, sprites
      ensures sprites[..] == SpriteLine(e) && hasSprites == NonEmpty(sprites[..])
    {
      ClearSprites();
      RowZero(e);
      hide RowOf, NonEmpty, SpriteLine, Nes.SpriteStage;
      for i := 0 to 64
        invariant SpriteStage(e) && sprites[..] == RowOf(e, i) && hasSprites == NonEmpty(sprites[..])
      {
        EvaluateSprite(i, e);
      }
      RowIsLine(e);
    }

    // ------------------------------------------------- spans and postponed dots

    method RenderVisibleSpanBackgroundOnly(n: nat, base: bv16, ghost sc: Scene)
      requires Wired() && sc.Valid() && Stage(sc) && dot + n <= 256 && AsRaster().Valid() && base == sc.base
      requires forall x | 0 <= x < 256 && sc.spritesOn :: sc.sprites[x] == 0
      modifies this`latches, this`shifters, this`status, indices, colors
      ensures AsRaster() == Pixels(sc, old(AsRaster()), n).(dot := dot)
    {
      hide Pixels, Nes.Stage;
      RenderSpan(n, base, false, sc);
    }

    /** The sprite columns are only looked at when there are any and they are switched on. */
    method RenderVisibleSpan(n: nat, base: bv16, ghost sc: Scene)
      requires Wired() && sc.Valid() && Stage(sc) && dot + n <= 256 && AsRaster().Valid() && base == sc.base
      requires !hasSprites ==> forall x | 0 <= x < 256 :: sc.sprites[x] == 0
      modifies this`latches, this`shifters, this`status, indices, colors
      ensures AsRaster() == Pixels(sc, old(AsRaster()), n).(dot := dot)
    {
      var plain := !hasSprites || ports.mask & 16 == 0;
      assert plain ==> forall x | 0 <= x < 256 && sc.spritesOn :: sc.sprites[x] == 0;
      assert !plain ==> sc.spritesOn;
      hide Pixels, Nes.Stage;
      if plain {
        RenderVisibleSpanBackgroundOnly(n, base, sc);
      } else {
        RenderSpan(n, base, true, sc);
      }
    }

    /** Place the frame-buffer row and evaluate its sprites, at the left edge of a line. */
    method BeginLine()
      requires Ready() && scany < 240
      modifies this`fbOffset, this`hasSprites, sprites
      ensures View() == StartLine(old(View()))
    {
      hide SpriteLine;
      ghost var e := View().AsSprites();
      fbOffset := scany * 256;
      EvaluateScanlineSprites(e);
    }

    lemma StageOfView()
      requires Ready()
      ensures Stage(View().AsScene()) && View().AsScene().base == ((ports.ctrl as bv16) << 8) & 0x1000
      ensures View().raster == AsRaster() && AsRaster().Valid()
      ensures !hasSprites ==> forall x | 0 <= x < 256 :: View().AsScene().sprites[x] == 0
    {
    }

    method DrawOn(n: nat, base: bv16, ghost sc: Scene)
      requires Wired() && sc.Valid() && Stage(sc) && dot + n <= 256 && AsRaster().Valid() && base == sc.base
      requires !hasSprites ==> forall x | 0 <= x < 256 :: sc.sprites[x] == 0
      modifies this`latches, this`shifters, this`status, indices, colors
      modifies this`dot
      ensures AsRaster() == Pixels(sc, old(AsRaster()), n)
    {
      hide Pixels, Nes.Stage;
      RenderVisibleSpan(n, base, sc);
      dot := dot + n;
    }

    /** Draw the next `n` dots of a line that has been started. */
    method ContinueLine(n: nat)
      requires Ready() && dot + n <= 256
      modifies this`latches, this`shifters, this`status, indices, colors
      modifies this`dot
      ensures View() == old(View()).(raster := Pixels(old(View()).AsScene(), old(View()).raster, n))
    {
      hide Pixels, Nes.Stage, Video.AsScene;
      StageOfView();
      DrawOn(n, ((ports.ctrl as bv16) << 8) & 0x1000, View().AsScene());
    }

    /** Draw the next `n` visible dots, starting the line first when it starts here. */
    method RunDeferredVisiblePpuDots(n: nat)
      requires Ready() && scany < 240 && dot + n <= 256
      modifies this`latches, this`shifters, this`status, indices, colors
      modifies this`dot, this`fbOffset, this`hasSprites, sprites
      ensures View() == RunVisible(old(View()), n)
    {
      hide Pixels, StartLine;
      if n == 0 {
        return;
      }
      if dot == 0 {
        BeginLine();
      }
      assert View() == LineReady(old(View()));
      ContinueLine(n);
    }

    // --------------------------------------------------------- the dot loop

    /** One prefetch dot, on the plain registers. */
    method RunPrefetchDot()
      requires Ready() && dot >= 320
      modifies this`latches, this`shifters
      ensures View() == Prefetch(old(View()))
    {
      ghost var sc, r0 := View().AsScene(), AsRaster();
      hide FetchLatches, FetchShifters, ShiftOnce;
      ghost var m0 := View();
      var base := ((ports.ctrl as bv16) << 8) & 0x1000;
      var s := if dot < 336 then ShiftOnce(shifters) else shifters;
      var bus := Bus(board, cart.chr, cart.mirror, chrData, vram[..]);
      shifters := FetchShifters(bus, base, dot, latches, s);
      latches := FetchLatches(bus, base, dot, latches);
    }

    method ClockMmc3()
      requires Ready()
      modifies this`cart, this`nmiIrq
      ensures View() == Mmc3Clock(old(View()))
    {
      hide CountDown;
      if (scany + 1) % 262 < 241 && dot == 261 && cart.mmc3Irq != 0 {
        if cart.mmc3Latch == 0 {
          nmiIrq := 1;
        }
        cart := CountDown(cart);
      }
    }

    method ReloadVertical()
      requires Ready()
      modifies this`latches
      ensures View() == VerticalReload(old(View()))
    {
      if scany == 261 && 280 <= dot < 305 {
        latches := latches.(v := (latches.v & 0x841f) | (ports.t & 0x7be0));
      }
    }

    /** The flag is raised and the picture handed over at the start of vertical blank, and
      the flags are cleared at its end. */
    method SignalFrame()
      requires Ready()
      modifies this`status, this`nmiIrq, this`frames
      ensures View() == FrameEvents(old(View()))
    {
      if dot == 1 {
        if scany == 241 {
          if ports.ctrl & 128 != 0 {
            nmiIrq := 4;
          }
          status := status | 128;
          frames := frames + [colors[2048..2048 + 57344]];
        }
        if scany == 261 {
          status := 0;
        }
      }
    }

    method StepDot()
      requires Ready()
      modifies this`dot, this`scany
      ensures View() == Advance(old(View()))
    {
      dot := dot + 1;
      if dot == 341 {
        dot := 0;
        scany := (scany + 1) % 262;
      }
    }

    /** What every round of the dot loop ends with. */
    method EndDot(rendering: bool)
      requires Ready() && rendering == View().Rendering()
      modifies this`cart, this`latches, this`status, this`dot, this`scany, this`nmiIrq, this`frames
      ensures View() == Tail(old(View()))
    {
      hide Mmc3Clock, VerticalReload, FrameEvents, Advance;
      if rendering {
        ClockMmc3();
        ReloadVertical();
      }
      SignalFrame();
      StepDot();
    }

    // Where a round of the dot loop jumps to.

    method MoveDot(d: nat)
      modifies this`dot
      ensures View() == old(View()).WithDot(d)
    {
      dot := d;
    }

    /** A run of visible dots, left at its last dot. */
    method VisibleSpan(left: nat) returns (span: nat)
      requires Ready() && View().Rendering() && scany < 240 && dot < 256
      modifies this`latches, this`shifters, this`status, this`dot, this`fbOffset, this`hasSprites
      modifies indices, colors, sprites
      ensures 1 <= span <= left + 1 && old(dot) + span <= 256
      ensures View() == RunVisible(old(View()), span).WithDot(old(dot) + span - 1)
    {
      hide RunVisible;
      span := if left + 1 > 256 - dot then 256 - dot else left + 1;
      var last := dot + span - 1;
      RunDeferredVisiblePpuDots(span);
      MoveDot(last);
    }

    /** Between the picture and the prefetch: stop on the MMC3 dot when the counter is due. */
    method PostVisibleSpan(left: nat) returns (span: nat)
      requires Ready() && View().Rendering() && scany < 240 && 256 < dot < 320
      modifies this`dot
      ensures 1 <= span <= left + 1 && View() == old(View()).WithDot(old(dot) + span - 1)
      ensures old(dot) + span <= 320 && forall d | old(dot) <= d < old(dot) + span - 1 :: Quiet(old(View()), d)
    {
      span := if left + 1 > 320 - dot then 320 - dot else left + 1;
      if dot <= 261 && dot + span > 261 && cart.mmc3Irq != 0 && (scany + 1) % 262 < 241 {
        span := 261 - dot + 1;
      }
      MoveDot(dot + span - 1);
    }

    /** On the idle scanlines of vertical blank a round takes the rest of the line. */
    method IdleSpan(left: nat) returns (span: nat)
      requires Ready() && View().Rendering() && 241 < scany < 261
      modifies this`dot
      ensures 1 <= span <= left + 1 && View() == old(View()).WithDot(old(dot) + span - 1)
      ensures old(dot) + span <= 341 && forall d | old(dot) <= d < old(dot) + span - 1 :: Quiet(old(View()), d)
    {
      span := if left + 1 > 341 - dot then 341 - dot else left + 1;
      MoveDot(dot + span - 1);
    }

    method EndOfLine()
      requires Ready() && dot == 256
      modifies this`latches
      ensures View() == old(View()).WithLatches(old(latches).(v := EndOfLineAddress(old(latches).v, ports.t)))
    {
      hide EndOfLineAddress;
      latches := latches.(v := EndOfLineAddress(latches.v, ports.t));
    }

    /** A span of the picture with the rest of its last dot to come. */
    method DrawRound(left: nat) returns (span: nat)
      requires Ready() && View().Rendering() && scany < 240 && dot < 256
      modifies this`latches, this`shifters, this`status, this`dot, this`fbOffset, this`hasSprites
      modifies indices, colors, sprites
      ensures 1 <= span <= left + 1
      ensures Ready() && View().Rendering() && Tail(View()) == Ticks(old(View()), span)
    {
      hide Tail, RunVisible, Ticks;
      ghost var m := View();
      span := VisibleSpan(left);
      VisibleTail(m, span);
    }

    /** A jump over dots behind the picture. */
    method SkipRound(left: nat) returns (span: nat)
      requires Ready() && View().Rendering() && scany < 240 && 256 < dot < 320
      modifies this`dot
      ensures 1 <= span <= left + 1
      ensures Ready() && View().Rendering() && Tail(View()) == Ticks(old(View()), span)
    {
      hide Tail, RunVisible, Prefetch, EndOfLineAddress, Ticks, StartLine, Pixel;
      ghost var m := View();
      span := PostVisibleSpan(left);
      JumpIsTicks(m, span - 1);
    }

    /** The end-of-line dot or a prefetch dot. */
    method FetchRound()
      requires Ready() && View().Rendering() && scany < 240 && (dot == 256 || dot >= 320)
      modifies this`latches, this`shifters
      ensures Ready() && View().Rendering() && Tail(View()) == Ticks(old(View()), 1)
    {
      hide Tail, RunVisible, Prefetch, EndOfLineAddress, Ticks, StartLine, Pixel;
      OneTick(View());
      if dot == 256 {
        EndOfLine();
      } else {
        RunPrefetchDot();
      }
    }

    /** A round on a visible scanline: `span` dots, left at the last one. */
    method VisibleWork(left: nat) returns (span: nat)
      requires Ready() && View().Rendering() && scany < 240
      modifies this`latches, this`shifters, this`status, this`dot, this`fbOffset, this`hasSprites
      modifies indices, colors, sprites
      ensures 1 <= span <= left + 1
      ensures Ready() && View().Rendering() && Tail(View()) == Ticks(old(View()), span)
    {
      hide Tail, Ticks, Nes.View, Video.Rendering;
      if dot < 256 {
        span := DrawRound(left);
      } else if 256 < dot < 320 {
        span := SkipRound(left);
      } else {
        FetchRound();
        span := 1;
      }
    }

    /** One round of the dot loop: a jump of `span` dots and the events of its last one. */
    method Round(rendering: bool, left: nat) returns (span: nat)
      requires Ready() && rendering == View().Rendering()
      modifies this`cart, this`latches, this`shifters, this`status, this`dot, this`scany, this`fbOffset, this`hasSprites
      modifies this`nmiIrq, this`frames, indices, colors, sprites
      ensures 1 <= span <= left + 1
      ensures Ready() && View() == Ticks(old(View()), span) && rendering == View().Rendering()
    {
      hide Tail, Ticks;
      ghost var m := View();
      span := 1;
      if rendering && scany < 240 {
        span := VisibleWork(left);
      } else if rendering && 241 < scany < 261 {
        span := IdleSpan(left);
        JumpIsTicks(m, span - 1);
      } else {
        OneTick(m);
      }
      EndDot(rendering);
    }

    method RunPpu(n: nat)
      requires Ready()
      modifies this`cart, this`latches, this`shifters, this`status, this`dot, this`scany, this`fbOffset, this`hasSprites
      modifies this`nmiIrq, this`frames, indices, colors, sprites
      ensures Ready() && View() == Ticks(old(View()), n)
    {
      hide Ticks;
      ghost var m := View();
      var rendering := ports.mask & 24 != 0;
      assert rendering == m.Rendering();
      var left := n;
      TicksZero(m, n - left);
      assert m.Valid();
      hide Nes.View, Nes.Ready, Video.Valid, Video.Rendering;
      while left > 0
        invariant 0 <= left <= n && Ready() && View() == Ticks(m, n - left) && rendering == View().Rendering()
      {
        var span := Round(rendering, left - 1);
        TicksAdd(m, n - left, span);
        left := left - span;
      }
    }

    // ------------------------------------------------------- postponed dots

    method CanDeferVisiblePpuDots(n: nat) returns (b: bool)
      requires Valid()
      ensures b == CanDefer(Whole(), n)
      ensures n > 0 ==> (b <==> Whole().(pending := deferred + n).Valid())
    {
      if ports.mask & 24 == 0 || scany >= 240 || dot >= 256 {
        return false;
      }
      return dot + deferred + n <= 256;
    }

    method FlushDeferredPpuDots()
      requires Valid()
      modifies this`latches, this`shifters, this`status, this`dot, this`fbOffset, this`hasSprites, this`deferred
      modifies indices, colors, sprites
      ensures Whole() == Flush(old(Whole()))
    {
      hide Ticks, RunVisible;
      ghost var m := View();
      if deferred == 0 {
        TicksZero(m, deferred);
        return;
      }
      VisibleTicks(m, deferred);
      RunDeferredVisiblePpuDots(deferred);
      deferred := 0;
    }

    /** The end of an instruction: its dots are added to the pending ones when they stay on the
      visible part of the line, and otherwise everything is run. */
    method FinishInstruction(dots: Dots)
      requires Valid()
      modifies this, indices, colors, sprites
      ensures Whole() == FinishLazily(old(Whole()), dots)
    {
      hide Ticks, Flush;
      var postpone := CanDeferVisiblePpuDots(dots);
      if postpone {
        deferred := deferred + dots;
      } else {
        FlushDeferredPpuDots();
        RunPpu(dots);
      }
    }

    // ------------------------------------------------------------------ mem

    method StepAddress()
      requires Ready()
      modifies this`latches
      ensures View() == StepDataPort(old(View()))
    {
      latches := latches.(v := (latches.v + (if ports.ctrl & 4 != 0 then 32 else 1)) & 0x3fff);
    }

    method DataByte() returns (byte: bv8)
      requires Ready()
      ensures byte == DataPortByte(View())
    {
      hide ChrIndex, NametableIndex, PaletteIndex;
      var a := latches.v;
      if a < 8192 {
        byte := chrData(ChrIndex(board, cart.chr, a));
      } else if a < 16128 {
        byte := vram[NametableIndex(cart.mirror, a)];
      } else {
        byte := palette[PaletteIndex(a)];
      }
    }

    /** Read of $2007: the buffer answers, and is filled from where V points. */
    method ReadData() returns (byte: bv8)
      requires Ready()
      modifies this`ports, this`latches
      ensures Ready() && ReadDataPort(old(View())) == (View(), byte)
    {
      hide DataPortByte, StepDataPort;
      byte := ports.buf;
      var fetched := DataByte();
      StepAddress();
      ports := ports.(buf := fetched);
    }

    method StoreChr(a: bv16, val: bv8)
      requires Ready() && a < 8192
      modifies this`chrData
      ensures View() == old(View()).(chrData := Store(old(chrData), ChrIndex(board, cart.chr, a), val))
    {
      hide ChrIndex;
      chrData := Store(chrData, ChrIndex(board, cart.chr, a), val);
    }

    method StoreVram(i: nat, val: bv8)
      requires Ready() && i < 2048
      modifies vram
      ensures View() == old(View()).(vram := old(vram[..])[i := val])
    {
      vram[i] := val;
    }

    method StorePalette(i: nat, val: bv8)
      requires Ready() && i < 256
      modifies palette
      ensures View() == old(View()).(palette := old(palette[..])[i := val])
    {
      palette[i] := val;
    }

    /** Write of $2007. */
    method WriteData(val: bv8) returns (byte: bv8)
      requires Ready()
      modifies this`chrData, this`latches, vram, palette
      ensures Ready() && WriteDataPort(old(View()), val) == (View(), byte)
    {
      hide ChrIndex, NametableIndex, PaletteIndex, Store;
      byte := ports.buf;
      var a := latches.v;
      StepAddress();
      if a < 8192 {
        if board.chrIsRam {
          StoreChr(a, val);
        } else {
          byte := val;
        }
      } else if a < 16128 {
        StoreVram(NametableIndex(cart.mirror, a), val);
      } else {
        StorePalette(PaletteIndex(a), val);
      }
    }

    /** $2002. */
    method Status() returns (byte: bv8)
      requires Ready()
      modifies this`ports, this`status
      ensures Ready() && StatusPort(old(View())) == (View(), byte)
    {
      byte := status & 0xe0;
      status := status & 0x7f;
      ports := ports.(w := false);
    }

    method ReadPpu(port: bv8) returns (byte: bv8)
      requires Ready()
      modifies this`ports, this`latches, this`status
      ensures Ready() && ReadPort(old(View()), port) == (View(), byte)
    {
      hide ReadDataPort, StatusPort;
      if port == 7 {
        byte := ReadData();
      } else if port == 2 {
        byte := Status();
      } else {
        byte := 255;
      }
    }

    method SetControl(val: bv8)
      requires Ready()
      modifies this`ports
      ensures Ready() && View() == WriteControl(old(View()), val)
    {
      ports := ports.(ctrl := val, t := (ports.t & 0xf3ff) | (((val as bv16) & 3) << 10));
    }

    method SetScroll(val: bv8)
      requires Ready()
      modifies this`ports
      ensures Ready() && View() == WriteScroll(old(View()), val)
    {
      var x := val as bv16;
      if !ports.w {
        ports := ports.(w := true, fineX := val & 7, t := (ports.t & 0xffe0) | (x >> 3));
      } else {
        ports := ports.(w := false, t := (ports.t & 0x8c1f) | ((x & 7) << 12) | ((x << 2) & 0x3e0));
      }
    }

    method SetAddress(val: bv8)
      requires Ready()
      modifies this`ports, this`latches
      ensures Ready() && View() == WriteAddress(old(View()), val)
    {
      var x := val as bv16;
      if !ports.w {
        ports := ports.(w := true, t := (ports.t & 0xff) | ((x & 63) << 8));
      } else {
        ports := ports.(w := false, t := (ports.t & 0xff00) | x);
        latches := latches.(v := ports.t);
      }
    }

    method SetMask(val: bv8)
      requires Ready()
      modifies this`ports
      ensures Ready() && View() == old(View()).(ports := old(ports).(mask := val))
    {
      ports := ports.(mask := val);
    }

    method WritePpu(port: bv8, val: bv8) returns (byte: bv8)
      requires Ready()
      modifies this`ports, this`latches, this`status, this`chrData, vram, palette
      ensures Ready() && WritePort(old(View()), port, val) == (View(), byte)
    {
      hide WriteDataPort, WriteControl, WriteScroll, WriteAddress, StatusPort;
      byte := 255;
      if port == 7 {
        byte := WriteData(val);
      } else if port == 0 {
        SetControl(val);
      } else if port == 1 {
        SetMask(val);
      } else if port == 5 {
        SetScroll(val);
      } else if port == 6 {
        SetAddress(val);
      } else if port == 2 {
        byte := Status();
      }
    }

    function Address(lo: bv8, hi: bv8): bv16 { ((hi as bv16) << 8) | (lo as bv16) }

    /** Settle the pending dots before an access that could notice them. */
    method SettleFor(addr: bv16, write: bool)
      requires Valid()
      modifies this`latches, this`shifters, this`status, this`dot, this`fbOffset, this`hasSprites, this`deferred
      modifies indices, colors, sprites
      ensures Valid() && Whole() == Settle(old(Whole()), addr, write)
    {
      hide Flush, NeedsFlush;
      var notices := NeedsFlush(addr, write);
      if deferred > 0 && notices {
        FlushDeferredPpuDots();
      } else if notices {
        FlushSettled(Whole());
      }
    }

    method AccessRam(addr: bv16, val: bv8, write: bool) returns (byte: bv8)
      requires Valid() && (addr < 0x2000 || 0x6000 <= addr < 0x8000)
      modifies ram, prgram
      ensures Valid() && Whole() == if write then WriteRam(old(Whole()), addr, val) else old(Whole())
      ensures byte == if write then val else if addr < 0x2000 then ram[Offset(addr)] else prgram[Offset(addr)]
    {
      hide Offset;
      var low := addr < 0x2000;
      if write {
        if low {
          ram[Offset(addr)] := val;
        } else {
          prgram[Offset(addr)] := val;
        }
        byte := val;
      } else {
        byte := if low then ram[Offset(addr)] else prgram[Offset(addr)];
      }
    }

    method AccessPpu(port: bv8, val: bv8, write: bool) returns (byte: bv8)
      requires Valid() && deferred == 0
      modifies this`ports, this`latches, this`status, this`chrData, vram, palette
      ensures Valid()
      ensures Reply(Whole(), byte)
           == if write then WriteRegister(old(Whole()), port, val) else ReadRegister(old(Whole()), port)
    {
      hide ReadPort, WritePort;
      if write {
        byte := WritePpu(port, val);
      } else {
        byte := ReadPpu(port);
      }
    }

    /** One more access to the page; the pad register may have been shifted. */
    method CountAccess(shifted: bv8)
      requires Valid()
      modifies this`clock, this`keys
      ensures Valid() && Whole() == old(Whole()).(keys := shifted, clock := old(clock) + 1)
    {
      hide Nes.View, Nes.Ready;
      keys := shifted;
      clock := clock + 1;
    }

    method ReadIoPage(lo: bv8) returns (byte: bv8)
      requires Valid()
      modifies this`clock, this`keys
      ensures Valid() && Reply(Whole(), byte) == ReadIo(old(Whole()), lo)
    {
      hide Nes.View, Nes.Ready;
      byte := 0;
      var shifted := keys;
      if lo == 21 {
        byte := inputs.apu(clock);
      } else if lo == 22 {
        byte := keys & 1;
        shifted := keys >> 1;
      }
      CountAccess(shifted);
    }

    method LatchKeys(lo: bv8)
      requires Valid()
      modifies this`clock, this`keys
      ensures Valid() && Whole() == LatchPad(old(Whole()), lo)
    {
      if lo == 22 {
        keys := inputs.pad(clock);
      }
      clock := clock + 1;
    }

    method AccessRom(addr: bv16, val: bv8, write: bool) returns (byte: bv8)
      requires Valid()
      modifies this`cart
      ensures Valid() && Whole() == if write then WriteMapper(old(Whole()), addr, val) else old(Whole())
      ensures byte == PrgByte(View(), addr)
    {
      hide MapperWrite;
      if write {
        cart := MapperWrite(board, cart, addr, val);
      }
      byte := board.prgByte(cart.prg, addr);
    }

    method StoreOam(i: nat, byte: bv8)
      requires Valid() && i < 256
      modifies oam
      ensures Valid() && Whole() == old(Whole()).(video := StoreSprite(old(View()), i, byte))
    {
      oam[i] := byte;
    }

    method DmaRound(i: nat, page: bv8)
      requires Valid() && i < 256
      modifies this, indices, colors, sprites, vram, palette, oam, ram, prgram
      ensures Valid() && Whole() == DmaStep(old(Whole()), page, i)
      decreases 1, 0
    {
      hide Read, StoreSprite;
      var byte := Mem(i as bv8, page, 0, false);
      assert Address(i as bv8, page) == ((page as bv16) << 8) | (i as bv16);
      StoreOam(i, byte);
    }

    /** The sprite DMA: 256 reads from the page, from the last byte down to the first. */
    method OamDma(page: bv8)
      requires Valid()
      modifies this, indices, colors, sprites, vram, palette, oam, ram, prgram
      ensures Valid() && Whole() == SpriteDma(old(Whole()), page, |old(View()).oam|)
      decreases 1, 1
    {
      hide DmaStep;
      var i := oam.Length;
      while i > 0
        invariant 0 <= i <= 256 && Valid()
        invariant SpriteDma(old(Whole()), page, oam.Length) == SpriteDma(Whole(), page, i)
      {
        i := i - 1;
        DmaRound(i, page);
      }
    }

    method AccessIo(lo: bv8, val: bv8, write: bool) returns (byte: bv8)
      requires Valid()
      modifies this, indices, colors, sprites, vram, palette, oam, ram, prgram
      ensures Valid()
      ensures Reply(Whole(), byte)
           == if write then Reply(WriteIo(old(Whole()), lo, val), 0) else ReadIo(old(Whole()), lo)
      decreases if write then 2 else 0, 0
    {
      hide SpriteDma, LatchPad, ReadIo;
      if write {
        if lo == 20 {
          OamDma(val);
        }
        LatchKeys(lo);
        byte := 0;
      } else {
        byte := ReadIoPage(lo);
      }
    }

    /** `mem`: a write of `val` to, or a read from, the address `hi:lo`. */
    method Mem(lo: bv8, hi: bv8, val: bv8, write: bool) returns (byte: bv8)
      requires Valid()
      modifies this, indices, colors, sprites, vram, palette, oam, ram, prgram
      ensures Valid()
      ensures Reply(Whole(), byte)
           == if write then Write(old(Whole()), Address(lo, hi), val) else Read(old(Whole()), Address(lo, hi))
      decreases if write then 2 else 0, 1
    {
      hide Settle, WriteRegister, ReadRegister, WriteIo, ReadIo, WriteMapper, WriteRam, Offset,
        Nes.View, Nes.Ready, PrgByte;
      var addr := Address(lo, hi);
      SettleFor(addr, write);
      if addr < 0x2000 || 0x6000 <= addr < 0x8000 {
        byte := AccessRam(addr, val, write);
      } else if addr < 0x4000 {
        byte := AccessPpu((addr & 7) as bv8, val, write);
      } else if addr < 0x5000 {
        byte := AccessIo((addr & 0xff) as bv8, val, write);
      } else {
        byte := AccessRom(addr, val, write);
      }
    }

    // --------------------------------------------------------- whole programs

    /** The end of an interrupt sequence. */
    method Acknowledge()
      requires Valid()
      modifies this`nmiIrq
      ensures Valid() && Whole() == old(Whole()).(video := old(View()).(nmiIrq := 0))
    {
      nmiIrq := 0;
    }

    /** What the processor does next, and what it learns from it. */
    method Perform(a: Action) returns (answer: seq<bv8>)
      requires Valid()
      modifies this, indices, colors, sprites, vram, palette, oam, ram, prgram
      ensures Valid()
      ensures forall heard :: Do(true, Run(old(Whole()), heard), a) == Run(Whole(), heard + answer)
    {
      hide Read, Write, FinishLazily;
      answer := [];
      match a {
        case Load(addr) =>
          var byte := Mem((addr & 0xff) as bv8, (addr >> 8) as bv8, 0, false);
          SplitAddress(addr);
          answer := [byte];
        case StoreTo(addr, val) =>
          var byte := Mem((addr & 0xff) as bv8, (addr >> 8) as bv8, val, true);
          SplitAddress(addr);
        case Acknowledge => Acknowledge();
        case Finish(dots) =>
          FinishInstruction(dots);
          answer := [nmiIrq];
      }
    }

    lemma SplitAddress(addr: bv16)
      ensures Address((addr & 0xff) as bv8, (addr >> 8) as bv8) == addr
    {
    }

    /** Main result: the emulator, with everything it postpones, skips and batches, runs `n`
      actions of a program that keeps away from the holes exactly as the dot-by-dot reference
      runs them: the program hears the same, and settling the pending dots gives the
      reference's machine. */
    method RunProgram(program: Program, n: nat) returns (heard: seq<bv8>)
      requires Valid() && deferred == 0 && AvoidsHoles(program, Whole(), n)
      modifies this, indices, colors, sprites, vram, palette, oam, ram, prgram
      ensures Valid()
      ensures heard == RunFor(false, program, old(Whole()), n).heard
      ensures Flush(Whole()) == RunFor(false, program, old(Whole()), n).m
      ensures frames == RunFor(false, program, old(Whole()), n).m.video.frames
    {
      hide Do, Flush, Hole;
      ghost var m := Whole();
      heard := [];
      for i := 0 to n
        invariant Valid() && RunFor(true, program, m, i) == Run(Whole(), heard)
      {
        var answer := Perform(program(heard));
        heard := heard + answer;
      }
      LazyRunIsEagerRun(program, m, n);
    }

    /** Memory of `n` zero bytes. */
    static method Cleared(n: nat) returns (a: array<bv8>)
      ensures fresh(a) && a.Length == n && forall k | 0 <= k < n :: a[k] == 0
    {
      a := new bv8[n](_ => 0);
    }

    lemma ClearedIsValid()
      requires Wired() && forall k | 0 <= k < 256 :: sprites[k] == 0
      requires ports == Ports(0, 0, false, 0, 0, 0)
        && dot == 0 && scany == 0 && fbOffset == 0 && !hasSprites && deferred == 0
      ensures Valid() && !View().Rendering()
    {
    }

    /** Power on: everything cleared, with the banks the header asks for. */
    constructor (board: Board, inputs: Inputs, cart: CartRegs, chrData: nat -> bv8)
      ensures Valid() && fresh(vram) && fresh(palette) && fresh(oam) && fresh(sprites)
      ensures fresh(indices) && fresh(colors) && fresh(ram) && fresh(prgram)
      ensures deferred == 0 && dot == 0 && scany == 0 && frames == [] && !View().Rendering()
      ensures this.board == board && this.inputs == inputs && this.cart == cart && this.chrData == chrData
    {
      this.board, this.inputs, this.cart, this.chrData := board, inputs, cart, chrData;
      var names := Cleared(2048);
      var shades := Cleared(256);
      var cells := Cleared(256);
      var row := Cleared(256);
      var pixels := Cleared(61440);
      var work := Cleared(8192);
      var saved := Cleared(8192);
      vram, palette, oam, sprites, indices, ram, prgram := names, shades, cells, row, pixels, work, saved;
      colors := new bv16[61440](_ => 0);
      ports, status := Ports(0, 0, false, 0, 0, 0), 0;
      latches, shifters := Latches(0, 0, 0, 0), Shifters(0, 0, 0);
      dot, scany, fbOffset, hasSprites := 0, 0, 0, false;
      nmiIrq, frames, keys, clock, deferred := 0, [], 0, 0, 0;
      new;
      hide Nes.Ready, Nes.Valid, Nes.View;
      ClearedIsValid();
    }
  }
}
