/** A pixel that no dot draws again stays until the picture is shown, whatever the program
  does meanwhile, as long as it leaves rendering on or off.
 */
module PictureRuns {
  import opened PpuModel
  import opened Ticking
  import opened CpuBus
  import opened PostponedDots
  import opened FrameShown

  /** What an access to memory leaves alone. */
  ghost predicate SameScreen(v: Video, u: Video) {
    && u.line == v.line && u.raster.dot == v.raster.dot && u.raster.colors == v.raster.colors
    && u.frames == v.frames && u.Rendering() == v.Rendering()
  }

  /** The store reaches the mask register and switches rendering on or off. */
  predicate Switches(v: Video, addr: bv16, val: bv8) {
    0x2000 <= addr < 0x4000 && addr & 7 == 1 && (val & 24 != 0) != v.Rendering()
  }

  lemma DataPortKeeps(v: Video, val: bv8)
    requires v.Valid()
    ensures SameScreen(v, ReadDataPort(v).0) && SameScreen(v, WriteDataPort(v, val).0)
  {
    hide DataPortByte, ChrIndex, NametableIndex, PaletteIndex, Store;
  }

  lemma StatusKeeps(v: Video)
    requires v.Valid()
    ensures SameScreen(v, StatusPort(v).0)
  {
  }

  lemma ControlKeeps(v: Video, val: bv8)
    requires v.Valid()
    ensures SameScreen(v, WriteControl(v, val))
  {
  }

  lemma ScrollKeeps(v: Video, val: bv8)
    requires v.Valid()
    ensures SameScreen(v, WriteScroll(v, val))
  {
  }

  lemma AddressKeeps(v: Video, val: bv8)
    requires v.Valid()
    ensures SameScreen(v, WriteAddress(v, val))
  {
  }

  lemma MaskKeeps(v: Video, val: bv8)
    requires v.Valid()
    ensures (val & 24 != 0) == v.Rendering() ==> SameScreen(v, v.(ports := v.ports.(mask := val)))
  {
  }

  lemma SameSelf(v: Video)
    ensures SameScreen(v, v)
  {
  }

  lemma PortsKeep(v: Video, port: bv8, val: bv8)
    requires v.Valid()
    ensures SameScreen(v, ReadPort(v, port).0)
    ensures (port == 1 ==> (val & 24 != 0) == v.Rendering()) ==> SameScreen(v, WritePort(v, port, val).0)
  {
    hide ReadDataPort, WriteDataPort, StatusPort, WriteControl, WriteScroll, WriteAddress, SameScreen, Video.Rendering;
    DataPortKeeps(v, val);
    SameSelf(v);
    MaskKeeps(v, val);
    StatusKeeps(v);
    ControlKeeps(v, val);
    ScrollKeeps(v, val);
    AddressKeeps(v, val);
  }

  lemma ReadKeeps(m: Machine, addr: bv16)
    requires m.Valid() && m.pending == 0
    ensures SameScreen(m.video, Read(m, addr).m.video)
  {
    hide Flush, ReadPort, SameScreen, Offset, PrgByte, NeedsFlush;
    FlushSettled(m);
    SameSelf(m.video);
    PortsKeep(m.video, (addr & 7) as bv8, 0);
  }

  lemma {:induction false} DmaKeeps(m: Machine, page: bv8, n: nat)
    requires m.Valid() && m.pending == 0 && n <= 256
    ensures SameScreen(m.video, SpriteDma(m, page, n).video)
    decreases n
  {
    hide Read;
    if n > 0 {
      ReadKeeps(m, ((page as bv16) << 8) | ((n - 1) as bv16));
      DmaKeeps(DmaStep(m, page, n - 1), page, n - 1);
    }
  }

  lemma WriteKeeps(m: Machine, addr: bv16, val: bv8)
    requires m.Valid() && m.pending == 0 && !Switches(m.video, addr, val)
    ensures SameScreen(m.video, Write(m, addr, val).m.video)
  {
    hide Flush, WritePort, SpriteDma, MapperWrite;
    FlushSettled(m);
    if 0x2000 <= addr < 0x4000 {
      PortOne(addr);
      PortsKeep(m.video, (addr & 7) as bv8, val);
    }
    DmaKeeps(m, val, |m.video.oam|);
  }

  lemma PortOne(addr: bv16)
    ensures (addr & 7) as bv8 == 1 <==> addr & 7 == 1
  {
  }

  // --------------------------------------------------------------- the pixel

  /** Cell `a` still has colour `c` and will keep it, or it has been shown on frame `k`. */
  ghost predicate Held(v: Video, a: nat, c: bv16, k: nat)
    requires 2048 <= a < 2048 + 57344
  {
    || (BeforeHandOver(v) && !WillDraw(v, a) && v.raster.colors[a] == c && |v.frames| == k)
    || (|v.frames| > k && |v.frames[k]| == 57344 && v.frames[k][a - 2048] == c)
  }

  lemma FramesGrow(v: Video)
    requires v.Valid()
    ensures v.frames <= Tick(v).frames
  {
    hide Tick, Pixel, StartLine;
    if v.line.scany == 241 && v.raster.dot == 1 {
      HandsOver(v);
    } else if OnVisibleDot(v) {
      VisibleDotKeeps(v);
    } else {
      OtherDotKeeps(v);
    }
  }

  lemma TickHeld(v: Video, a: nat, c: bv16, k: nat)
    requires v.Valid() && 2048 <= a < 2048 + 57344 && Held(v, a, c, k)
    ensures Held(Tick(v), a, c, k)
  {
    hide Tick, WillDraw;
    FramesGrow(v);
    if |v.frames| == k {
      if v.line.scany == 241 && v.raster.dot == 1 {
        HandsOver(v);
        assert v.raster.colors[2048..2048 + 57344][a - 2048] == v.raster.colors[a];
      } else {
        DotKeeps(v);
        WillDrawStep(v, a);
      }
    }
  }

  lemma {:induction false} TicksHeld(v: Video, n: nat, a: nat, c: bv16, k: nat)
    requires v.Valid() && 2048 <= a < 2048 + 57344 && Held(v, a, c, k)
    ensures Held(Ticks(v, n), a, c, k)
  {
    hide Tick, Held;
    if n > 0 {
      TicksHeld(v, n - 1, a, c, k);
      TickHeld(Ticks(v, n - 1), a, c, k);
    }
  }

  lemma ScreenHeld(v: Video, u: Video, a: nat, c: bv16, k: nat)
    requires v.Valid() && u.Valid() && SameScreen(v, u) && 2048 <= a < 2048 + 57344 && Held(v, a, c, k)
    ensures Held(u, a, c, k)
  {
    hide Video.Rendering, Video.Valid;
  }

  lemma DoHeld(r: Run, action: Action, a: nat, c: bv16, k: nat)
    requires r.m.Valid() && r.m.pending == 0 && 2048 <= a < 2048 + 57344 && Held(r.m.video, a, c, k)
    requires action.StoreTo? ==> !Switches(r.m.video, action.addr, action.val)
    ensures Held(Do(false, r, action).m.video, a, c, k)
  {
    hide Read, Write, Ticks, Held, Switches, SameScreen;
    match action {
      case Load(addr) =>
        ReadKeeps(r.m, addr);
        ScreenHeld(r.m.video, Read(r.m, addr).m.video, a, c, k);
      case StoreTo(addr, val) =>
        WriteKeeps(r.m, addr, val);
        ScreenHeld(r.m.video, Write(r.m, addr, val).m.video, a, c, k);
      case Acknowledge =>
        AcknowledgeKeeps(r.m.video);
        ScreenHeld(r.m.video, r.m.video.(nmiIrq := 0), a, c, k);
      case Finish(dots) => TicksHeld(r.m.video, dots, a, c, k);
    }
  }

  lemma AcknowledgeKeeps(v: Video)
    ensures SameScreen(v, v.(nmiIrq := 0))
  {
  }

  /** None of the first `n` actions switches rendering on or off. */
  ghost predicate LeavesRendering(program: Program, m: Machine, n: nat)
    requires m.Valid() && m.pending == 0
  {
    forall k | 0 <= k < n ::
      var r := RunFor(false, program, m, k);
      var a := program(r.heard);
      a.StoreTo? ==> !Switches(r.m.video, a.addr, a.val)
  }

  lemma {:induction false} RunHeld(program: Program, m: Machine, n: nat, a: nat)
    requires m.Valid() && m.pending == 0 && LeavesRendering(program, m, n)
    requires BeforeHandOver(m.video) && 2048 <= a < 2048 + 57344 && !WillDraw(m.video, a)
    ensures Held(RunFor(false, program, m, n).m.video, a, m.video.raster.colors[a], |m.video.frames|)
  {
    hide Do, Switches, WillDraw;
    if n > 0 {
      assert LeavesRendering(program, m, n - 1);
      RunHeld(program, m, n - 1, a);
      var r := RunFor(false, program, m, n - 1);
      DoHeld(r, program(r.heard), a, m.video.raster.colors[a], |m.video.frames|);
    }
  }

  /** Main result: in a run of a program that keeps away from the holes and does not switch
    rendering meanwhile, the next picture that the lazy emulator hands over shows every
    pixel of its 224 rows that was not still to be drawn at the start. */
  lemma NextPictureShows(program: Program, m: Machine, n: nat, a: nat)
    requires m.Valid() && m.pending == 0 && AvoidsHoles(program, m, n) && LeavesRendering(program, m, n)
    requires BeforeHandOver(m.video) && 2048 <= a < 2048 + 57344 && !WillDraw(m.video, a)
    ensures var q, k := RunFor(true, program, m, n).m.video, |m.video.frames|;
            |q.frames| > k ==> |q.frames[k]| == 57344 && q.frames[k][a - 2048] == m.video.raster.colors[a]
  {
    hide RunFor, AvoidsHoles, LeavesRendering, WillDraw;
    LazyRunIsEagerRun(program, m, n);
    RunHeld(program, m, n, a);
  }
}
