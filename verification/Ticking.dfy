/** How runs of single dots compose, and what a run of visible dots comes to. */
module Ticking {
  import opened PpuModel

  lemma {:induction false} TicksAdd(m: Video, a: nat, b: nat)
    requires m.Valid()
    ensures Ticks(m, a + b) == Ticks(Ticks(m, a), b)
  {
    hide Tick;
    if b != 0 { TicksAdd(m, a, b - 1); }
  }

  lemma {:induction false} PixelsAdd(sc: Scene, r: Raster, a: nat, b: nat)
    requires sc.Valid() && r.Valid() && r.dot + a + b <= 256
    ensures Pixels(sc, r, a + b) == Pixels(sc, Pixels(sc, r, a), b)
  {
    hide Pixel;
    if b != 0 { PixelsAdd(sc, r, a, b - 1); }
  }

  function LineReady(m: Video): (q: Video)
    requires m.Valid() && m.line.scany < 240
    ensures q.Valid() && q == m.(line := q.line) && q.line.scany == m.line.scany
  {
    if m.raster.dot == 0 then StartLine(m) else m
  }

  /** `n` visible dots at once: evaluate the sprites when the line starts here, then draw. */
  function RunVisible(m: Video, n: nat): (q: Video)
    requires m.Valid() && m.line.scany < 240 && m.raster.dot + n <= 256
    ensures q.Valid()
  {
    if n == 0 then m
    else
      var l := LineReady(m);
      l.(raster := Pixels(l.AsScene(), l.raster, n))
  }

  predicate OnVisibleDot(m: Video) { m.Rendering() && m.line.scany < 240 && m.raster.dot < 256 }

  lemma VisibleTick(m: Video)
    requires m.Valid() && OnVisibleDot(m)
    ensures Tick(m) == LineReady(m).(raster := Pixel(LineReady(m).AsScene(), m.raster))
  {
    hide Pixel, StartLine;
  }

  /** A visible dot raises no event, so `n` dots of the main loop are one span. */
  lemma {:induction false} VisibleTicks(m: Video, n: nat)
    requires m.Valid() && m.Rendering() && m.line.scany < 240 && m.raster.dot + n <= 256
    ensures Ticks(m, n) == RunVisible(m, n)
  {
    hide Tick, Pixel, StartLine;
    if n == 1 {
      VisibleTick(m);
      var l := LineReady(m);
      assert Ticks(m, 1) == Tick(Ticks(m, 0));
      assert Pixels(l.AsScene(), l.raster, 1) == Pixel(l.AsScene(), Pixels(l.AsScene(), l.raster, 0));
    } else if n > 1 {
      VisibleTicks(m, n - 1);
      var l := LineReady(m);
      var q := l.(raster := Pixels(l.AsScene(), l.raster, n - 1));
      assert RunVisible(m, n - 1) == q && q.AsScene() == l.AsScene();
      VisibleTick(q);
    }
  }

  // ------------------------------------------------------------ skipped dots

  /** The part of a dot after its visible work. */
  function Tail(m: Video): (q: Video)
    requires m.Valid()
    ensures q.Valid()
  {
    Advance(FrameEvents(if m.Rendering() then VerticalReload(Mmc3Clock(m)) else m))
  }

  /** The work of a dot that falls on a visible scanline. */
  function Head(m: Video): (q: Video)
    requires m.Valid()
    ensures q.Valid()
  {
    if m.Rendering() && m.line.scany < 240 then VisibleDot(m) else m
  }

  lemma TickIsHeadTail(m: Video)
    requires m.Valid()
    ensures Tick(m) == Tail(Head(m))
  {
    hide Pixel, StartLine, Prefetch, EndOfLineAddress;
  }

  /** Past the last visible dot of a span nothing happens but the step to the next dot. */
  lemma VisibleTail(m: Video, n: nat)
    requires m.Valid() && m.Rendering() && m.line.scany < 240 && n > 0 && m.raster.dot + n <= 256
    ensures RunVisible(m, n).WithDot(m.raster.dot + n - 1).Valid()
    ensures Tail(RunVisible(m, n).WithDot(m.raster.dot + n - 1)) == Ticks(m, n)
  {
    hide Pixels, StartLine, Ticks, Video.AsScene;
    VisibleTicks(m, n);
  }

  /** A dot on which nothing happens: between the end of the picture and the prefetch, unless
    the MMC3 counter is due, or on one of the idle scanlines of vertical blank. */
  predicate Quiet(m: Video, dot: nat) {
    && m.Rendering()
    && (|| (m.line.scany < 240 && 256 < dot < 320 && !(dot == 261 && m.cart.mmc3Irq != 0))
        || (241 < m.line.scany < 261 && dot < 340))
  }

  lemma QuietTick(m: Video)
    requires m.Valid() && Quiet(m, m.raster.dot)
    ensures Tick(m) == m.WithDot(m.raster.dot + 1)
  {
  }

  lemma {:induction false} QuietTicks(m: Video, n: nat)
    requires m.Valid() && forall d | m.raster.dot <= d < m.raster.dot + n :: Quiet(m, d)
    ensures m.raster.dot + n < 341 && m.WithDot(m.raster.dot + n).Valid()
    ensures Ticks(m, n) == m.WithDot(m.raster.dot + n)
  {
    hide Tick;
    if n > 0 {
      QuietTicks(m, n - 1);
      assert Quiet(m, m.raster.dot + n - 1);
      QuietTick(m.WithDot(m.raster.dot + n - 1));
    }
  }

  /** Jumping over quiet dots and then finishing the last one is ticking through them. */
  lemma JumpIsTicks(m: Video, n: nat)
    requires m.Valid() && forall d | m.raster.dot <= d < m.raster.dot + n :: Quiet(m, d)
    requires m.raster.dot + n < 341 && Head(m.WithDot(m.raster.dot + n)) == m.WithDot(m.raster.dot + n)
    ensures Tail(m.WithDot(m.raster.dot + n)) == Ticks(m, n + 1)
  {
    QuietTicks(m, n);
    TickIsHeadTail(m.WithDot(m.raster.dot + n));
    hide Tick, Tail, Head;
  }

  /** The position of the beam: dots since the top left corner. */
  function Beam(m: Video): (b: nat)
    requires m.Valid()
    ensures b < 89342
  {
    m.line.scany * 341 + m.raster.dot
  }

  lemma HeadKeepsBeam(m: Video)
    requires m.Valid()
    ensures Beam(Head(m)) == Beam(m)
  {
    hide Pixel, StartLine, Prefetch, EndOfLineAddress;
  }

  lemma TailMovesBeam(m: Video)
    requires m.Valid()
    ensures Beam(Tail(m)) == (Beam(m) + 1) % 89342
  {
    hide FrameEvents, VerticalReload, Mmc3Clock, Advance;
    AdvanceMovesBeam(FrameEvents(if m.Rendering() then VerticalReload(Mmc3Clock(m)) else m));
  }

  lemma AdvanceMovesBeam(m: Video)
    requires m.Valid()
    ensures Beam(Advance(m)) == (Beam(m) + 1) % 89342
  {
  }

  lemma TickMovesBeam(m: Video)
    requires m.Valid()
    ensures Beam(Tick(m)) == (Beam(m) + 1) % 89342
  {
    hide Tick, Head, Tail, Beam;
    TickIsHeadTail(m);
    HeadKeepsBeam(m);
    TailMovesBeam(Head(m));
  }

  lemma NextInFrame(a: nat)
    ensures (a % 89342 + 1) % 89342 == (a + 1) % 89342
  {
  }

  /** However the dots are grouped, `n` of them move the beam by exactly `n`, around a frame
    of 262 lines of 341 dots, 89342 in all. */
  lemma {:induction false} TicksMoveBeam(m: Video, n: nat)
    requires m.Valid()
    ensures Beam(Ticks(m, n)) == (Beam(m) + n) % 89342
  {
    hide Tick, Beam;
    if n > 0 {
      TicksMoveBeam(m, n - 1);
      TickMovesBeam(Ticks(m, n - 1));
      NextInFrame(Beam(m) + n - 1);
    }
  }

  lemma OneTick(m: Video)
    requires m.Valid()
    ensures Ticks(m, 1) == Tail(Head(m))
  {
    hide Tick, Tail, Head;
    TickIsHeadTail(m);
    assert Ticks(m, 1) == Tick(Ticks(m, 0));
  }

  lemma TicksZero(m: Video, n: nat)
    requires m.Valid() && n == 0
    ensures Ticks(m, n) == m
  {
  }
}
