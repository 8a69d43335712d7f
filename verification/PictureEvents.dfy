/** When pictures are handed over, when the vertical blank flag is up, and when the line counter
  interrupts.
 */
module PictureEvents {
  import opened PpuModel
  import opened Ticking
  import opened FrameShown
  import opened LinesOnward
  import opened PictureRows
  import opened SpriteLaws

  // ----------------------------------------------------------------- pictures

  /** The dot on which a picture is handed over. */
  predicate OnHandOver(v: Video) { v.line.scany == 241 && v.raster.dot == 1 }

  lemma DotPictures(v: Video)
    requires v.Valid()
    ensures OnHandOver(v) ==> |Tick(v).frames| == |v.frames| + 1 && Tick(v).frames[..|v.frames|] == v.frames
    ensures !OnHandOver(v) ==> Tick(v).frames == v.frames
  {
    hide Tick;
    if OnHandOver(v) {
      HandsOver(v);
    } else if OnVisibleDot(v) {
      VisibleDotKeeps(v);
    } else {
      OtherDotKeeps(v);
    }
  }

  /** Hand-overs in the `n` dots from beam position `b` on: the beam passes 82182 of each 89342. */
  function PicturesIn(b: nat, n: nat): int { (b + n + 7159) / 89342 - (b + 7159) / 89342 }

  lemma BeamThere(v: Video)
    requires v.Valid()
    ensures OnHandOver(v) <==> Beam(v) == 82182
  {
  }

  lemma OnePass(b: nat, n: nat, beam: nat)
    requires beam == (b + n) % 89342
    ensures PicturesIn(b, n + 1) == PicturesIn(b, n) + if beam == 82182 then 1 else 0
  {
    var f := (b + n) / 89342;
    assert b + n == 89342 * f + beam;
  }

  /** Main result: `n` dots hand over as many pictures as the beam passes line 241, dot 1, and
    keep the earlier ones, whatever is drawn. */
  lemma {:induction false} PicturesInTime(v: Video, n: nat)
    requires v.Valid()
    ensures var q := Ticks(v, n);
            && |q.frames| == |v.frames| + PicturesIn(Beam(v), n)
            && |v.frames| <= |q.frames| && q.frames[..|v.frames|] == v.frames
  {
    hide Tick, PicturesIn, Beam, OnHandOver;
    if n == 0 {
      NoneInNone(Beam(v));
    } else {
      PicturesInTime(v, n - 1);
      var a := Ticks(v, n - 1);
      DotPictures(a);
      BeamThere(a);
      TicksMoveBeam(v, n - 1);
      OnePass(Beam(v), n - 1, Beam(a));
    }
  }

  lemma NoneInNone(b: nat)
    ensures PicturesIn(b, 0) == 0
  {
  }

  // ----------------------------------------------------------- vertical blank

  predicate Blank(v: Video) { v.raster.status & 128 != 0 }

  lemma HitKeepsBlank(cell: bv8, color: bv8, pal: bv8, status: bv8)
    ensures MergeSprite(cell, color, pal, status).status & 128 == status & 128
  {
  }

  lemma PixelKeepsBlank(sc: Scene, r: Raster)
    requires sc.Valid() && r.Valid() && r.dot < 256
    ensures Pixel(sc, r).status & 128 == r.status & 128
  {
    hide MergeSprite, BackgroundColor, BackgroundPalette, PaletteEntry, ShiftOnce;
    HitKeepsBlank(if sc.spritesOn then sc.sprites[r.dot] else 0,
      BackgroundColor(r.shifters, sc.fineX), BackgroundPalette(r.shifters, sc.fineX), r.status);
  }

  lemma DrawnKeepsBlank(v: Video)
    requires v.Valid() && OnVisibleDot(v)
    ensures Blank(Head(v)) == Blank(v)
  {
    hide Pixel, StartLine;
    PixelKeepsBlank(LineReady(v).AsScene(), v.raster);
  }

  lemma HeadKeepsBlank(v: Video)
    requires v.Valid()
    ensures Blank(Head(v)) == Blank(v)
  {
    hide Head;
    if OnVisibleDot(v) {
      DrawnKeepsBlank(v);
    } else {
      HeadKeeps(v);
    }
  }

  lemma TailBlank(v: Video)
    requires v.Valid()
    ensures Blank(Tail(v)) == (OnHandOver(v) || (Blank(v) && !(v.line.scany == 261 && v.raster.dot == 1)))
  {
    hide Reloaded;
    RaisedBit(v.raster.status);
  }

  lemma RaisedBit(s: bv8)
    ensures (s | 128) & 128 != 0
  {
  }

  lemma DotBlank(v: Video)
    requires v.Valid()
    ensures Blank(Tick(v)) == (OnHandOver(v) || (Blank(v) && !(v.line.scany == 261 && v.raster.dot == 1)))
  {
    hide Tick, Head, Tail, Blank;
    TickIsHeadTail(v);
    HeadKeepsBlank(v);
    HeadKeepsDot(v);
    TailBlank(Head(v));
  }

  /** Main result: unless it is read, the flag is up for the twenty lines behind a hand-over and
    down until the next. */
  lemma {:induction false} BlankFlag(v: Video, n: nat)
    requires v.Valid() && OnHandOver(v) && 0 < n <= 89342
    ensures Blank(Ticks(v, n)) <==> n <= 6820
  {
    hide Tick, Blank;
    var a := Ticks(v, n - 1);
    TicksMoveBeam(v, n - 1);
    DotBlank(a);
    if n > 1 {
      BlankFlag(v, n - 1);
    }
  }

  // ------------------------------------------------------------ the hit flag

  /** The dot before the picture takes every flag away. */
  lemma FlagsCleared(v: Video)
    requires v.Valid() && v.line.scany == 261 && v.raster.dot == 1
    ensures Tick(v).raster.status == 0
  {
    hide Reloaded;
  }

  predicate Hit(v: Video) { v.raster.status & 64 != 0 }

  /** The next dot shows an opaque pixel of sprite 0. */
  ghost predicate HitsAt(v: Video) {
    && v.Valid() && OnVisibleDot(v) && v.ports.mask & 16 != 0
    && FirstSprite(v.AsSprites(), 0, 64, v.raster.dot) & 32 != 0
  }

  /** The sprite row is that of the line. */
  ghost predicate Current(v: Video)
    requires v.Valid()
  {
    v.line.scany < 240 && v.raster.dot > 0 ==> v.line.sprites == SpriteLine(v.AsSprites())
  }

  lemma RowThere(v: Video)
    requires v.Valid() && OnVisibleDot(v) && Current(v)
    ensures LineReady(v).line.sprites == SpriteLine(v.AsSprites()) && LineReady(v).ports == v.ports
    ensures Current(Tick(v)) && Tick(v).raster.status == Pixel(LineReady(v).AsScene(), v.raster).status
  {
    hide Tick, Pixel, SpriteLine;
    VisibleTick(v);
  }

  lemma DrawnHit(v: Video)
    requires v.Valid() && OnVisibleDot(v) && Current(v)
    ensures Hit(Tick(v)) == (Hit(v) || HitsAt(v)) && Current(Tick(v))
  {
    hide Tick, MergeSprite, BackgroundColor, BackgroundPalette, PaletteEntry, ShiftOnce, FirstSprite;
    RowThere(v);
    var sc, r := LineReady(v).AsScene(), v.raster;
    HitIff(if sc.spritesOn then sc.sprites[r.dot] else 0,
      BackgroundColor(r.shifters, sc.fineX), BackgroundPalette(r.shifters, sc.fineX), r.status);
    RaisedHit(r.status);
  }

  lemma RaisedHit(s: bv8)
    ensures (s | 64) & 64 != 0 && (s | 128) & 64 == s & 64
  {
  }

  lemma TailHit(v: Video)
    requires v.Valid() && !(v.line.scany == 261 && v.raster.dot == 1)
    ensures Hit(Tail(v)) == Hit(v) && Tail(v).line.sprites == v.line.sprites
  {
    hide Reloaded;
    RaisedHit(v.raster.status);
  }

  lemma OtherHit(v: Video)
    requires v.Valid() && !OnVisibleDot(v) && Current(v) && v.Rendering() && !(v.line.scany == 261 && v.raster.dot == 1)
    ensures Hit(Tick(v)) == Hit(v) && Current(Tick(v))
  {
    hide Tick, Head, Tail, SpriteLine, Hit;
    TickIsHeadTail(v);
    HeadKeeps(v);
    assert Hit(Head(v)) == Hit(v) by { SameStatus(v, Head(v)); }
    TailHit(Head(v));
    TickMovesBeam(v);
    TicksSameWorld(v, 1);
    OneStep(v);
    assert v.line.scany < 240 && Tick(v).raster.dot > 0 ==> Tick(v).AsSprites() == v.AsSprites();
  }

  lemma SameStatus(v: Video, q: Video)
    requires q.raster.status == v.raster.status
    ensures Hit(q) == Hit(v)
  {
  }

  /** Main result: from the start of a picture on, the hit flag is up if and only if an opaque
    pixel of sprite 0 has been shown. */
  lemma {:induction false} HitFlag(v: Video, n: nat)
    requires v.Valid() && v.Rendering() && v.line.scany == 0 && v.raster.dot == 0 && !Hit(v) && n <= 89002
    ensures Hit(Ticks(v, n)) <==> exists k: nat | k < n :: HitsAt(Ticks(v, k))
    ensures Current(Ticks(v, n))
  {
    hide Tick, Hit, HitsAt, Current;
    if n == 0 {
      TopIsCurrent(v);
    } else {
      HitFlag(v, n - 1);
      var a := Ticks(v, n - 1);
      TicksMoveBeam(v, n - 1);
      TicksSameWorld(v, n - 1);
      if OnVisibleDot(a) {
        DrawnHit(a);
      } else {
        OtherHit(a);
        NotOnPicture(a);
      }
      MoreOrLast(v, n);
    }
  }

  lemma TopIsCurrent(v: Video)
    requires v.Valid() && v.raster.dot == 0
    ensures Current(v)
  {
  }

  lemma NotOnPicture(v: Video)
    requires !OnVisibleDot(v)
    ensures !HitsAt(v)
  {
  }

  lemma MoreOrLast(v: Video, n: nat)
    requires v.Valid() && n > 0
    ensures (exists k: nat | k < n :: HitsAt(Ticks(v, k)))
       <==> (exists k: nat | k < n - 1 :: HitsAt(Ticks(v, k))) || HitsAt(Ticks(v, n - 1))
  {
    hide Ticks, HitsAt;
  }

  // ---------------------------------------------------------------- interrupts

  /** The dot on which the line counter of mapper 4 is looked at. */
  predicate Clocks(v: Video) {
    v.Rendering() && (v.line.scany < 240 || v.line.scany == 261) && v.raster.dot == 261 && v.cart.mmc3Irq != 0
  }

  lemma HeadKeepsCounter(v: Video)
    requires v.Valid()
    ensures Head(v).cart == v.cart && Head(v).nmiIrq == v.nmiIrq && Head(v).ports == v.ports
  {
    hide Pixel, SpriteLine, FetchLatches, FetchShifters, ShiftOnce, EndOfLineAddress;
  }

  lemma TailCounter(v: Video)
    requires v.Valid() && !OnHandOver(v)
    ensures var q := Tail(v);
            && q.cart == (if Clocks(v) then CountDown(v.cart) else v.cart)
            && q.nmiIrq == if Clocks(v) && v.cart.mmc3Latch == 0 then 1 else v.nmiIrq
  {
    hide Reloaded, CountDown;
  }

  lemma DotCounter(v: Video)
    requires v.Valid() && !OnHandOver(v)
    ensures var q := Tick(v);
            && q.cart == (if Clocks(v) then CountDown(v.cart) else v.cart)
            && q.nmiIrq == if Clocks(v) && v.cart.mmc3Latch == 0 then 1 else v.nmiIrq
  {
    hide Tick, Head, Tail, CountDown;
    TickIsHeadTail(v);
    HeadKeepsCounter(v);
    HeadKeepsDot(v);
    TailCounter(Head(v));
  }

  /** The hand-over interrupts when control bit 7 asks for it. */
  lemma HandOverInterrupts(v: Video)
    requires v.Valid() && OnHandOver(v)
    ensures Tick(v).nmiIrq == (if v.ports.ctrl & 128 != 0 then 4 else v.nmiIrq) && Tick(v).cart == v.cart
  {
    hide Reloaded;
  }

  lemma Decrement(a: bv8)
    ensures a == 0 <==> a as nat == 0
    ensures (a - 1) as nat == if a == 0 then 255 else a as nat - 1
  {
  }

  /** Lines whose dot 261 is among the first `n` dots. */
  function LinesClocked(n: nat): nat { (n + 79) / 341 }

  lemma ClockedOrNot(n: nat, line: nat, dot: nat)
    requires n == line * 341 + dot && dot < 341
    ensures LinesClocked(n + 1) == LinesClocked(n) + if dot == 261 then 1 else 0
    ensures LinesClocked(n) <= line + 1 && (dot <= 261 ==> LinesClocked(n) == line)
  {
  }

  /** The counter has gone down `c` times, and has interrupted when that was beyond zero. */
  ghost predicate Counted(v: Video, q: Video, c: nat) {
    var latch := v.cart.mmc3Latch as nat;
    && q.cart == v.cart.(mmc3Latch := q.cart.mmc3Latch)
    && q.cart.mmc3Latch as nat == (if c <= latch then latch - c else 256 + latch - c)
    && q.nmiIrq == if c > latch then 1 else v.nmiIrq
  }

  lemma CountedStep(v: Video, a: Video, q: Video, c: nat)
    requires Counted(v, a, c) && c < 240
    requires q.cart == CountDown(a.cart) && q.nmiIrq == if a.cart.mmc3Latch == 0 then 1 else a.nmiIrq
    ensures Counted(v, q, c + 1)
  {
    Decrement(a.cart.mmc3Latch);
  }

  lemma CountedDot(v: Video, a: Video, c: nat)
    requires v.Valid() && a.Valid() && Counted(v, a, c) && (a.raster.dot == 261 ==> c < 240) && v.cart.mmc3Irq != 0
    requires a.Rendering() && a.line.scany < 240
    ensures Counted(v, Tick(a), if a.raster.dot == 261 then c + 1 else c)
  {
    hide Tick, CountDown;
    DotCounter(a);
    if a.raster.dot == 261 {
      CountedStep(v, a, Tick(a), c);
    }
  }

  /** Main result: the counter goes down by one on every line of the picture, and interrupts on
    line `latch`, at dot 261. */
  lemma {:induction false} CounterInterrupts(v: Video, n: nat)
    requires v.Valid() && v.Rendering() && v.line.scany == 0 && v.raster.dot == 0 && v.cart.mmc3Irq != 0 && n <= 81840
    ensures Counted(v, Ticks(v, n), LinesClocked(n))
  {
    hide Tick, LinesClocked, Counted;
    if n == 0 {
      NoneClocked();
      NoneCounted(v);
    } else {
      CounterInterrupts(v, n - 1);
      var a := Ticks(v, n - 1);
      TicksMoveBeam(v, n - 1);
      TicksSameWorld(v, n - 1);
      ClockedOrNot(n - 1, a.line.scany, a.raster.dot);
      CountedDot(v, a, LinesClocked(n - 1));
    }
  }

  lemma NoneClocked()
    ensures LinesClocked(0) == 0
  {
  }

  lemma NoneCounted(v: Video)
    ensures Counted(v, v, 0)
  {
  }
}
