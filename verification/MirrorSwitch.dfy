/** A mirroring switch that comes before the pending dots instead of behind them is on the
  next picture.
 */
module MirrorSwitch {
  import opened PpuModel
  import opened Ticking
  import opened CpuBus
  import opened PostponedDots
  import opened FrameShown
  import opened PpuHoles

  // ---------------------------------------------- from the attribute to a pixel

  /** The registers after a dot: shifted, and with the fetched tile at the eighth one. */
  lemma PixelMoves(sc: Scene, r: Raster)
    requires sc.Valid() && r.Valid() && r.dot < 256
    ensures Pixel(sc, r).shifters == FetchShifters(sc.bus, sc.base, r.dot, r.latches, ShiftOnce(r.shifters))
    ensures Pixel(sc, r).latches == FetchLatches(sc.bus, sc.base, r.dot, r.latches)
  {
    hide FetchLatches, FetchShifters, ShiftOnce, MergeSprite, BackgroundColor, BackgroundPalette, PaletteEntry;
  }

  /** At dots 4 to 6 of a tile, and at dot 0 of the next, no tile is merged and the attribute
    stays fetched. */
  lemma PlainDot(sc: Scene, r: Raster)
    requires sc.Valid() && r.Valid() && r.dot < 256 && r.dot % 8 in {0, 4, 5, 6}
    ensures Pixel(sc, r).shifters == ShiftOnce(r.shifters) && Pixel(sc, r).latches.atb == r.latches.atb
  {
    hide ShiftOnce, Pixel, PatternAddress, Bus.Chr;
    PixelMoves(sc, r);
  }

  lemma MergingDot(sc: Scene, r: Raster)
    requires sc.Valid() && r.Valid() && r.dot < 256 && r.dot % 8 == 7
    ensures exists hi, lo ::
              var s := ShiftOnce(r.shifters);
              Pixel(sc, r).shifters
              == Shifters(MergePlane(s.hi, hi), MergePlane(s.lo, lo), MergeAttribute(s.at, r.latches.atb))
  {
    hide ShiftOnce, Pixel, PatternHigh;
    PixelMoves(sc, r);
    var s := ShiftOnce(r.shifters);
    assert Pixel(sc, r).shifters
        == Shifters(MergePlane(s.hi, PatternHigh(sc.bus, sc.base, r.latches)), MergePlane(s.lo, r.latches.ptbLo),
                    MergeAttribute(s.at, r.latches.atb));
  }

  /** Registers of solid pixels without an attribute, at the fifth dot of the line. */
  ghost predicate Solid(sc: Scene, r: Raster) {
    && sc.Valid() && r.Valid() && r.dot == 4 && sc.fineX == 7 && !sc.spritesOn
    && r.shifters == Shifters(0xfffe, 0xfffe, 0)
  }

  /** Five dots on, the attribute has arrived where pixels are tapped. */
  lemma AttributeArrives(sc: Scene, r: Raster)
    requires Solid(sc, r) && (r.latches.atb == 0 || r.latches.atb == 0xffff)
    ensures var q := Pixels(sc, r, 5);
            && BackgroundColor(q.shifters, 7) == 3
            && BackgroundPalette(q.shifters, 7) == if r.latches.atb == 0 then 0 else 12
  {
    hide Pixel, ShiftPlane, ShiftAttribute, MergePlane, MergeAttribute, BackgroundColor, BackgroundPalette;
    var r5, r6, r7, r8 := Pixels(sc, r, 1), Pixels(sc, r, 2), Pixels(sc, r, 3), Pixels(sc, r, 4);
    assert r5 == Pixel(sc, Pixels(sc, r, 0)) && r6 == Pixel(sc, r5) && r7 == Pixel(sc, r6) && r8 == Pixel(sc, r7);
    PlainDot(sc, r);
    PlainDot(sc, r5);
    PlainDot(sc, r6);
    MergingDot(sc, r7);
    PlainDot(sc, r8);
    var s := ShiftOnce(ShiftOnce(ShiftOnce(ShiftOnce(r.shifters))));
    var hi, lo :| r8.shifters
              == Shifters(MergePlane(s.hi, hi), MergePlane(s.lo, lo), MergeAttribute(s.at, r.latches.atb));
    SolidTap(hi, lo, r.latches.atb);
  }

  lemma SolidTap(hi: bv8, lo: bv8, atb: bv16)
    requires atb == 0 || atb == 0xffff
    ensures var s := ShiftOnce(ShiftOnce(ShiftOnce(ShiftOnce(Shifters(0xfffe, 0xfffe, 0)))));
            var q := ShiftOnce(Shifters(MergePlane(s.hi, hi), MergePlane(s.lo, lo), MergeAttribute(s.at, atb)));
            BackgroundColor(q, 7) == 3 && BackgroundPalette(q, 7) == if atb == 0 then 0 else 12
  {
  }

  /** The sixth dot draws with it. */
  lemma AttributeIsDrawn(sc: Scene, r: Raster)
    requires Solid(sc, r) && (r.latches.atb == 0 || r.latches.atb == 0xffff)
    requires sc.bus.board.pixelOutput && sc.bus.board.rgbaOutput
    ensures Pixels(sc, r, 6).colors[sc.fbOffset + 9]
         == sc.bus.board.rgb565(sc.palette[if r.latches.atb == 0 then 3 else 15])
  {
    hide Pixels, FetchAt, BackgroundColor, BackgroundPalette, ShiftOnce;
    AttributeArrives(sc, r);
    PixelsStep(sc, r, 5);
  }

  lemma PixelsStep(sc: Scene, r: Raster, n: nat)
    requires sc.Valid() && r.Valid() && r.dot + n + 1 <= 256
    ensures Pixels(sc, r, n + 1) == Pixel(sc, Pixels(sc, r, n))
  {
  }

  // --------------------------------------------------------- the two machines

  /** A machine on scanline 10 whose pending dot fetches the attribute of a solid tile: none
    from the first nametable, the last palette from the second. */
  function AtAttribute(b: Board, mirror: bv8, one: bv8, two: bv8): (m: Machine)
    ensures m.Valid() && m.video.raster.dot == 3 && m.pending == 1
  {
    var v := Video(b, COLD.(mirror := mirror), _ => 255, seq(2048, i => if i < 1024 then 0 else 255),
                   seq(256, i => if i == 15 then two else one), seq(256, i => 0),
                   Ports(0, 7, false, 0, 8, 0),
                   Raster(3, Latches(0, 0, 0, 0), Shifters(0xffff, 0xffff, 0), 0,
                          seq(61440, i => 0), seq(61440, i => 0)),
                   Line(10, 2560, seq(256, i => 0), false), 0, []);
    Machine(v, seq(8192, i => 0), seq(8192, i => 0), 0, Inputs(_ => 0, _ => 0), 0, 1)
  }

  /** Where the pending dot leaves the picture unit. */
  lemma AttributeFetched(m: Machine)
    requires m.Valid() && m.pending == 1 && m.video.raster.dot == 3
    ensures var r := Flush(m).video.raster;
            && Flush(m).video == m.video.(raster := r) && r.dot == 4
            && r.shifters == ShiftOnce(m.video.raster.shifters)
            && r.latches.atb == AttributeWord(m.video.AsBus().Nametable(AttributeAddress(m.video.raster.latches.v)),
                                              m.video.raster.latches.v)
  {
    VisibleTicks(m.video, 1);
    var sc := m.video.AsScene();
    assert Pixels(sc, m.video.raster, 1) == Pixel(sc, Pixels(sc, m.video.raster, 0));
    PixelMoves(sc, m.video.raster);
    hide Pixel, ShiftOnce, AttributeWord, AttributeAddress, Bus.Nametable;
  }

  /** At dot 4 of scanline 10, in front of solid pixels, with the fetched attribute to come. */
  ghost predicate Poised(v: Video, atb: bv16) {
    && v.Valid() && Solid(v.AsScene(), v.raster) && v.Rendering() && v.line.scany == 10 && v.line.fbOffset == 2560
    && v.frames == [] && v.raster.latches.atb == atb && v.board.pixelOutput && v.board.rgbaOutput
  }

  /** The dots from there up to and with the one that hands the picture over. */
  const TO_PICTURE: nat := 231 * 341 - 2

  /** The next picture shows the palette entry the attribute selects. */
  lemma AttributeIsShown(v: Video, atb: bv16)
    requires Poised(v, atb) && (atb == 0 || atb == 0xffff)
    ensures var frames := Ticks(v, TO_PICTURE).frames;
            && |frames| == 1 && |frames[0]| == 57344
            && frames[0][521] == v.board.rgb565(v.palette[if atb == 0 then 3 else 15])
  {
    hide Ticks, Pixels;
    VisibleTicks(v, 6);
    AttributeIsDrawn(v.AsScene(), v.raster);
    var q := Ticks(v, 6);
    assert BeforeHandOver(q) && !WillDraw(q, 2569);
    PixelIsShown(q, 2569);
    TicksAdd(v, 6, TO_PICTURE - 6);
  }

  /** The pending dot fetches from the nametable the mirroring selects. */
  lemma FetchedByMirror(m: Machine, b: Board, mirror: bv8, one: bv8, two: bv8, c: CartRegs)
    requires m.Valid() && m.pending == 1 && b.pixelOutput && b.rgbaOutput && mirror <= 1 && c.mirror == mirror
    requires m.video == AtAttribute(b, 1 - mirror, one, two).video.(cart := c)
          || m.video == AtAttribute(b, mirror, one, two).video.(cart := c)
    ensures Poised(Flush(m).video, if mirror == 0 then 0 else 0xffff)
  {
    hide Flush, ShiftOnce;
    AttributeFetched(m);
    FirstAttribute(m.video.AsBus(), mirror);
    assert ShiftOnce(Shifters(0xffff, 0xffff, 0)) == Shifters(0xfffe, 0xfffe, 0) by { FullShifted(); }
  }

  lemma FullShifted()
    ensures ShiftOnce(Shifters(0xffff, 0xffff, 0)) == Shifters(0xfffe, 0xfffe, 0)
  {
  }

  lemma FirstAttribute(bus: Bus, mirror: bv8)
    requires bus.Valid() && bus.mirror == mirror && mirror <= 1
    requires forall i | 0 <= i < 2048 :: bus.vram[i] == if i < 1024 then 0 else 255
    ensures AttributeWord(bus.Nametable(AttributeAddress(0)), 0) == if mirror == 0 then 0 else 0xffff
  {
    assert AttributeAddress(0) == 0x3c0;
    assert NametableIndex(mirror, 0x3c0) == if mirror == 0 then 960 else 1984;
  }

  /** Main result: on mapper 7, with picture output on and two colours to tell apart, every
    store through the hole can be seen on the next picture. */
  lemma MirrorHoleIsSeen(b: Board, addr: bv16, val: bv8, one: bv8, two: bv8) returns (m: Machine)
    requires 0x5000 <= addr < 0x6000 && b.mapper == 7
    requires b.pixelOutput && b.rgbaOutput && b.rgb565(one) != b.rgb565(two)
    ensures m.Valid() && m.video.board == b
    ensures Ticks(Flush(Write(m, addr, val).m).video, TO_PICTURE).frames
         != Ticks(Write(Flush(m), addr, val).m.video, TO_PICTURE).frames
  {
    hide Flush, Write, MapperWrite, Ticks, Solid, AtAttribute, TO_PICTURE;
    var to: bv8 := if val >> 4 == 0 then 1 else 0;
    m := AtAttribute(b, 1 - to, one, two);
    var c := m.video.cart;
    var d := MapperWrite(b, c, addr, val);
    AtAttributeIs(b, 1 - to, one, two);
    Switched(b, c, addr, val);
    assert m.video.(cart := c) == m.video;
    MapperHoleStep(m, addr, val);
    MapperHoleStep(Flush(m), addr, val);
    FetchedByMirror(m, b, 1 - to, one, two, c);
    FetchedByMirror(Write(m, addr, val).m, b, to, one, two, d);
    AttributeFetched(m);
    AttributeFetched(Write(m, addr, val).m);
    var before, behind := if to == 0 then 0 else 0xffff, if to == 0 then 0xffff else 0;
    PoisedRewired(Flush(m).video, d, behind);
    AttributeIsShown(Flush(Write(m, addr, val).m).video, before);
    AttributeIsShown(Flush(m).video.(cart := d), behind);
  }

  lemma PoisedRewired(v: Video, d: CartRegs, atb: bv16)
    requires Poised(v, atb)
    ensures Poised(v.(cart := d), atb)
  {
  }

  lemma AtAttributeIs(b: Board, mirror: bv8, one: bv8, two: bv8)
    ensures var v := AtAttribute(b, mirror, one, two).video;
            v.board == b && v.cart.mirror == mirror && v.palette[3] == one && v.palette[15] == two
  {
  }

  lemma Switched(b: Board, c: CartRegs, addr: bv16, val: bv8)
    requires b.mapper == 7 && 0x5000 <= addr < 0x6000
    ensures MapperWrite(b, c, addr, val).mirror == if val >> 4 == 0 then 1 else 0
  {
  }
}
