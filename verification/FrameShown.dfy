/** Which dots still draw a pixel before the picture is handed to the screen, and that a pixel
  none of them draws is shown as it is.
 */
module FrameShown {
  import opened PpuModel
  import opened Ticking

  /** Where the frame-buffer row begins that a dot draws into: it is placed at the left edge
    of a line, and only when rendering is on there. */
  function Row(v: Video): nat {
    if v.raster.dot == 0 then v.line.scany * 256 else v.line.fbOffset
  }

  /** The next dot draws cell `a`. */
  ghost predicate DrawsAt(v: Video, a: nat) { OnVisibleDot(v) && a == Row(v) + v.raster.dot }

  ghost predicate BeforeHandOver(v: Video) {
    v.Valid() && (v.line.scany < 241 || (v.line.scany == 241 && v.raster.dot <= 1))
  }

  /** With rendering as it is, the rest of the row that is being drawn and the lines below the
    beam are still to be drawn. */
  ghost predicate WillDraw(v: Video, a: nat) {
    && v.Rendering() && v.line.scany < 240
    && ((v.raster.dot < 256 && Row(v) + v.raster.dot <= a < Row(v) + 256) || (v.line.scany + 1) * 256 <= a)
  }

  /** The dots up to and with the one on which the picture is handed over. */
  function Remaining(v: Video): (n: nat)
    requires BeforeHandOver(v)
  {
    (241 - v.line.scany) * 341 + 2 - v.raster.dot
  }

  // ------------------------------------------------------------------ one dot

  lemma PixelColors(sc: Scene, r: Raster)
    requires sc.Valid() && r.Valid() && r.dot < 256
    ensures forall a | 0 <= a < 61440 && a != sc.fbOffset + r.dot :: Pixel(sc, r).colors[a] == r.colors[a]
  {
    hide FetchLatches, FetchShifters, MergeSprite, BackgroundColor, BackgroundPalette, PaletteEntry;
  }

  /** What a dot leaves alone: the ports, the earlier frames, and every cell it does not draw. */
  ghost predicate Kept(v: Video, q: Video)
    requires v.Valid() && q.Valid()
  {
    && q.frames == v.frames && q.ports == v.ports
    && forall a: nat | a < 61440 && !DrawsAt(v, a) :: q.raster.colors[a] == v.raster.colors[a]
  }

  lemma VisibleDotKeeps(v: Video)
    requires v.Valid() && OnVisibleDot(v)
    ensures Kept(v, Tick(v)) && Tick(v).raster.dot == v.raster.dot + 1
    ensures Tick(v).line.scany == v.line.scany && Tick(v).line.fbOffset == Row(v)
  {
    hide Pixel, SpriteLine, Tick;
    VisibleTick(v);
    PixelColors(LineReady(v).AsScene(), v.raster);
  }

  /** Outside the picture the head of a dot only moves latches and shift registers. */
  lemma HeadKeeps(v: Video)
    requires v.Valid() && !OnVisibleDot(v)
    ensures var q := Head(v); q == v.(raster := v.raster.(latches := q.raster.latches, shifters := q.raster.shifters))
  {
    hide EndOfLineAddress, FetchLatches, FetchShifters, ShiftOnce, Video.AsScene;
  }

  lemma ReloadKeeps(v: Video)
    requires v.Valid()
    ensures var q := VerticalReload(Mmc3Clock(v));
            && q.raster.colors == v.raster.colors && q.raster.dot == v.raster.dot && q.line == v.line
            && q.frames == v.frames && q.ports == v.ports
  {
  }

  lemma NoEvent(v: Video)
    requires v.Valid() && !(v.line.scany == 241 && v.raster.dot == 1)
    ensures var q := FrameEvents(v);
            && q.raster.colors == v.raster.colors && q.raster.dot == v.raster.dot && q.line == v.line
            && q.frames == v.frames && q.ports == v.ports
  {
  }

  lemma EventsKeep(v: Video)
    requires v.Valid() && !(v.line.scany == 241 && v.raster.dot == 1)
    ensures var q := FrameEvents(if v.Rendering() then VerticalReload(Mmc3Clock(v)) else v);
            && q.Valid() && q.raster.colors == v.raster.colors && q.raster.dot == v.raster.dot && q.line == v.line
            && q.frames == v.frames && q.ports == v.ports
  {
    hide FrameEvents, VerticalReload, Mmc3Clock;
    ReloadKeeps(v);
    NoEvent(if v.Rendering() then VerticalReload(Mmc3Clock(v)) else v);
  }

  lemma OtherDotKeeps(v: Video)
    requires v.Valid() && !OnVisibleDot(v) && !(v.line.scany == 241 && v.raster.dot == 1)
    ensures Kept(v, Tick(v)) && Tick(v).line.fbOffset == v.line.fbOffset
  {
    hide Tick, Head, FrameEvents, VerticalReload, Mmc3Clock;
    TickIsHeadTail(v);
    HeadKeeps(v);
    EventsKeep(Head(v));
  }

  lemma DotKeeps(v: Video)
    requires BeforeHandOver(v) && !(v.line.scany == 241 && v.raster.dot == 1)
    ensures Kept(v, Tick(v)) && BeforeHandOver(Tick(v)) && Remaining(Tick(v)) == Remaining(v) - 1
    ensures Tick(v).line.fbOffset == if OnVisibleDot(v) then Row(v) else v.line.fbOffset
  {
    hide Tick, Kept;
    TickMovesBeam(v);
    if OnVisibleDot(v) {
      VisibleDotKeeps(v);
    } else {
      OtherDotKeeps(v);
    }
  }

  lemma HandsOver(v: Video)
    requires v.Valid() && v.line.scany == 241 && v.raster.dot == 1
    ensures Tick(v).frames == v.frames + [v.raster.colors[2048..2048 + 57344]]
  {
    hide Pixel, StartLine, FetchAt, EndOfLineAddress;
  }

  /** What is to be drawn is drawn now or later. */
  lemma WillDrawStep(v: Video, a: nat)
    requires BeforeHandOver(v) && !(v.line.scany == 241 && v.raster.dot == 1) && a < 61440
    ensures WillDraw(v, a) <==> DrawsAt(v, a) || WillDraw(Tick(v), a)
  {
    hide Tick;
    DotKeeps(v);
    TickMovesBeam(v);
    var q := Tick(v);
    assert q.Rendering() == v.Rendering();
  }

  // ---------------------------------------------------------------- many dots

  lemma {:induction false} DotsBefore(v: Video, a: nat, n: nat)
    requires BeforeHandOver(v) && a < 61440 && n < Remaining(v)
    ensures var q := Ticks(v, n);
            && BeforeHandOver(q) && Remaining(q) == Remaining(v) - n && q.frames == v.frames
            && (WillDraw(v, a) <==> (exists k: nat | k < n :: DrawsAt(Ticks(v, k), a)) || WillDraw(q, a))
            && (!WillDraw(v, a) ==> q.raster.colors[a] == v.raster.colors[a])
  {
    hide Tick, DrawsAt, WillDraw;
    if n > 0 {
      DotsBefore(v, a, n - 1);
      var q := Ticks(v, n - 1);
      DotKeeps(q);
      WillDrawStep(q, a);
    }
  }

  lemma LastDot(v: Video)
    requires BeforeHandOver(v) && Remaining(v) == 1
    ensures v.line.scany == 241 && v.raster.dot == 1
  {
  }

  /** Main result: which cells the dots up to the hand-over draw. */
  lemma DrawnIff(v: Video, a: nat)
    requires BeforeHandOver(v) && a < 61440
    ensures (exists k: nat | k < Remaining(v) :: DrawsAt(Ticks(v, k), a)) <==> WillDraw(v, a)
  {
    hide Ticks;
    var n := Remaining(v) - 1;
    DotsBefore(v, a, n);
    LastDot(Ticks(v, n));
    assert !DrawsAt(Ticks(v, n), a) && !WillDraw(Ticks(v, n), a);
    if k: nat :| k < n + 1 && DrawsAt(Ticks(v, k), a) {
      assert k < n;
    }
  }

  /** Main result: when the picture is next handed over, it shows each pixel of its 224 rows
    that no dot up to then draws again the way it is. */
  lemma PixelIsShown(v: Video, a: nat)
    requires BeforeHandOver(v) && !WillDraw(v, a) && 2048 <= a < 2048 + 57344
    ensures var q := Ticks(v, Remaining(v));
            && |q.frames| == |v.frames| + 1 && q.frames[..|v.frames|] == v.frames
            && |q.frames[|v.frames|]| == 57344 && q.frames[|v.frames|][a - 2048] == v.raster.colors[a]
  {
    hide Tick, WillDraw;
    DotsBefore(v, a, Remaining(v) - 1);
    var q := Ticks(v, Remaining(v) - 1);
    LastDot(q);
    HandsOver(q);
    assert q.raster.colors[2048..2048 + 57344][a - 2048] == q.raster.colors[a];
  }

  // ----------------------------------------------------- the row that is drawn

  /** A dot draws the cell under the beam if and only if the row was placed on this line. */
  lemma DrawsUnderBeamIff(v: Video)
    requires OnVisibleDot(v)
    ensures DrawsAt(v, v.line.scany * 256 + v.raster.dot)
       <==> v.raster.dot == 0 || v.line.fbOffset == v.line.scany * 256
  {
  }

  /** The row has been placed on the line the beam is in. */
  ghost predicate Placed(v: Video) {
    v.line.scany < 240 && v.raster.dot > 0 ==> v.line.fbOffset == v.line.scany * 256
  }

  /** It stays placed, unless a line of the picture begins with rendering off. */
  lemma StaysPlacedIff(v: Video)
    requires v.Valid() && Placed(v)
    ensures Placed(Tick(v))
       <==> v.line.scany >= 240 || v.raster.dot > 0 || v.Rendering() || v.line.fbOffset == v.line.scany * 256
  {
    hide Tick;
    TickMovesBeam(v);
    if OnVisibleDot(v) {
      VisibleDotKeeps(v);
    } else if !(v.line.scany == 241 && v.raster.dot == 1) {
      OtherDotKeeps(v);
    }
  }

  lemma DarkTick(v: Video)
    requires v.Valid() && !v.Rendering() && v.line.scany < 240 && v.raster.dot < 340
    ensures Tick(v) == v.WithDot(v.raster.dot + 1)
  {
  }

  /** Dots without rendering only move the beam. */
  lemma {:induction false} DarkTicks(v: Video, n: nat)
    requires v.Valid() && !v.Rendering() && v.line.scany < 240 && v.raster.dot + n < 341
    ensures Ticks(v, n) == v.WithDot(v.raster.dot + n)
  {
    hide Tick;
    if n > 0 {
      DarkTicks(v, n - 1);
      DarkTick(Ticks(v, n - 1));
    }
  }

  /** Main result: rendering that is switched on inside a line draws over the row of the last
    line that began with it on, and not under the beam. */
  lemma LateStartDrawsElsewhere(v: Video, n: nat, mask: bv8)
    requires v.Valid() && !v.Rendering() && v.line.scany < 240 && v.raster.dot == 0
    requires v.line.fbOffset != v.line.scany * 256 && 0 < n < 256 && mask & 24 != 0
    ensures var w := Ticks(v, n).(ports := v.ports.(mask := mask));
            && w.Valid() && DrawsAt(w, v.line.fbOffset + n) && !DrawsAt(w, v.line.scany * 256 + n)
            && Tick(w).raster.colors[v.line.scany * 256 + n] == v.raster.colors[v.line.scany * 256 + n]
  {
    hide Tick, Ticks;
    DarkTicks(v, n);
    VisibleDotKeeps(Ticks(v, n).(ports := v.ports.(mask := mask)));
  }
}
