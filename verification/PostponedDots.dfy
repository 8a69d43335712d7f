/** Postponing visible dots is invisible to the program, except through the writes that
  reach the picture unit without settling it first.
 */
module PostponedDots {
  import opened PpuModel
  import opened Ticking
  import opened CpuBus

  /** What visible dots leave alone. */
  ghost predicate SameOutside(v: Video, u: Video) {
    && u == v.(raster := u.raster, line := u.line)
    && u.line.scany == v.line.scany && u.raster.Valid() && u.line.Valid()
  }

  lemma FlushKeepsOutside(m: Machine)
    requires m.Valid()
    ensures SameOutside(m.video, Flush(m).video)
    ensures Flush(m).video.raster.dot == m.video.raster.dot + m.pending
  {
    if m.pending > 0 {
      VisibleTicks(m.video, m.pending);
      hide Pixels, StartLine;
    }
  }

  // ------------------------------------------------------ what may be postponed

  lemma OnSameLine(m: Machine, k: nat)
    requires m.Valid() && OnVisibleDot(m.video) && m.video.raster.dot + k <= 256
    ensures var v := Ticks(m.video, k);
            v.raster.dot == m.video.raster.dot + k && v.line.scany == m.video.line.scany && v.Rendering()
  {
    hide Ticks, Pixels, StartLine;
    VisibleTicks(m.video, k);
  }

  /** Dots may be postponed behind the pending ones exactly when each of them is a visible dot
    of the reference run. */
  lemma DefersVisibleDots(m: Machine, n: nat)
    requires m.Valid() && n > 0
    ensures CanDefer(m, n) <==> forall k: nat | m.pending <= k < m.pending + n :: OnVisibleDot(Ticks(m.video, k))
  {
    hide Tick;
    if CanDefer(m, n) {
      forall k: nat | m.pending <= k < m.pending + n
        ensures OnVisibleDot(Ticks(m.video, k))
      {
        OnSameLine(m, k);
      }
    } else if OnVisibleDot(m.video) {
      var k := 256 - m.video.raster.dot;
      OnSameLine(m, k);
      assert !OnVisibleDot(Ticks(m.video, k));
    } else {
      assert Ticks(m.video, m.pending) == m.video;
    }
  }

  // ----------------------------------------------------- accesses that commute

  lemma FlushTwice(m: Machine)
    requires m.Valid()
    ensures Flush(Flush(m)) == Flush(m)
  {
    hide Tick;
  }

  lemma FlushSettled(m: Machine)
    requires m.Valid() && m.pending == 0
    ensures Flush(m) == m
  {
    hide Tick;
  }

  lemma ReadIoCommutes(m: Machine, lo: bv8)
    requires m.Valid()
    ensures ReadIo(Flush(m), lo) == Reply(Flush(ReadIo(m, lo).m), ReadIo(m, lo).byte)
  {
    hide Ticks;
  }

  /** A read gives the same byte and the same machine whether the pending dots run before
    it or stay pending. */
  lemma ReadCommutes(m: Machine, addr: bv16)
    requires m.Valid()
    ensures Read(Flush(m), addr) == Reply(Flush(Read(m, addr).m), Read(m, addr).byte)
  {
    FlushTwice(m);
    if NeedsFlush(addr, false) {
      FlushTwice(ReadRegister(Flush(m), (addr & 7) as bv8).m);
      assert Read(m, addr) == Read(Flush(m), addr) by { hide Ticks, ReadRegister; }
      hide Ticks, ReadPort;
    } else if 0x4000 <= addr < 0x5000 {
      ReadIoCommutes(m, (addr & 0xff) as bv8);
      hide Flush, ReadIo;
    } else {
      FlushKeepsOutside(m);
      hide Ticks;
    }
  }

  // ------------------------------------- mapper writes that do not show yet

  /** Two register files that show the same pattern banks and mirroring. */
  ghost predicate SamePicture(c: CartRegs, d: CartRegs) { c.chr == d.chr && c.mirror == d.mirror }

  lemma LineRewired(m: Video, d: CartRegs)
    requires m.Valid() && m.line.scany < 240 && SamePicture(m.cart, d)
    ensures LineReady(m.(cart := d)) == LineReady(m).(cart := d)
  {
    hide SpriteLine;
    assert m.(cart := d).AsSprites() == m.AsSprites();
  }

  lemma FlushRewired(m: Machine, d: CartRegs)
    requires m.Valid() && SamePicture(m.video.cart, d)
    ensures Flush(m.(video := m.video.(cart := d))) == Flush(m).(video := Flush(m).video.(cart := d))
  {
    if m.pending > 0 {
      VisibleTicks(m.video, m.pending);
      VisibleTicks(m.video.(cart := d), m.pending);
      LineRewired(m.video, d);
      var l := LineReady(m.video);
      assert l.(cart := d).AsScene() == l.AsScene();
      hide Pixels, StartLine;
    }
  }

  // ------------------------------------------------------------- writes

  /** The writes that change what pending dots will draw without settling them first: a
    sprite DMA through a mirror of $4014 from a page that is not a register page, and a
    mapper write below $8000 on a mapper that moves pattern banks or mirroring with it. */
  predicate Hole(b: Board, addr: bv16, val: bv8) {
    || (0x4000 <= addr < 0x5000 && addr & 0xff == 0x14 && addr != 0x4014 && !(0x20 <= val < 0x40))
    || (0x5000 <= addr < 0x6000 && (b.mapper == 3 || b.mapper == 7 || (b.mapper == 1 && val & 0x80 == 0)))
  }

  /** A DMA from a register page settles the pending dots with its first read. */
  lemma RegisterPageDma(m: Machine, page: bv8)
    requires m.Valid() && 0x20 <= page < 0x40
    ensures SpriteDma(m, page, |m.video.oam|) == SpriteDma(Flush(m), page, |m.video.oam|)
  {
    var a := ((page as bv16) << 8) | (255 as bv16);
    assert NeedsFlush(a, false);
    assert Read(m, a) == Read(Flush(m), a) by {
      FlushTwice(m);
      hide Flush, ReadRegister;
    }
    hide Read;
  }

  lemma SettledWriteCommutes(m: Machine, addr: bv16, val: bv8)
    requires m.Valid() && NeedsFlush(addr, true)
    ensures Write(Flush(m), addr, val) == Reply(Flush(Write(m, addr, val).m), Write(m, addr, val).byte)
  {
    FlushTwice(m);
    var r := Write(m, addr, val);
    FlushSettled(r.m);
    hide Flush, WriteIo, WriteMapper, WriteRegister;
  }

  lemma IoWriteCommutes(m: Machine, lo: bv8, val: bv8)
    requires m.Valid() && (lo == 0x14 ==> 0x20 <= val < 0x40)
    ensures WriteIo(Flush(m), lo, val) == Flush(WriteIo(m, lo, val))
  {
    hide Ticks, SpriteDma;
    if lo == 0x14 {
      RegisterDmaCommutes(m, val);
    }
  }

  lemma RegisterDmaCommutes(m: Machine, val: bv8)
    requires m.Valid() && 0x20 <= val < 0x40
    ensures WriteIo(Flush(m), 0x14, val) == Flush(WriteIo(m, 0x14, val))
  {
    hide Flush, SpriteDma;
    RegisterPageDma(m, val);
    FlushKeepsOutside(m);
    FlushSettled(WriteIo(m, 0x14, val));
  }

  lemma MapperKeepsPicture(b: Board, c: CartRegs, addr: bv16, val: bv8)
    requires 0x5000 <= addr < 0x6000 && !Hole(b, addr, val)
    ensures SamePicture(c, MapperWrite(b, c, addr, val))
  {
  }

  lemma MapperWriteCommutes(m: Machine, addr: bv16, val: bv8)
    requires m.Valid() && 0x5000 <= addr < 0x6000 && !Hole(m.video.board, addr, val)
    ensures WriteMapper(Flush(m), addr, val) == Flush(WriteMapper(m, addr, val))
    ensures PrgByte(WriteMapper(Flush(m), addr, val).video, addr) == PrgByte(WriteMapper(m, addr, val).video, addr)
  {
    hide Flush, MapperWrite, Hole;
    FlushKeepsOutside(m);
    MapperKeepsPicture(m.video.board, m.video.cart, addr, val);
    FlushRewired(m, MapperWrite(m.video.board, m.video.cart, addr, val));
  }

  /** A write that is not a hole gives the same byte and the same machine whether the
    pending dots run before it or stay pending. */
  lemma WriteCommutes(m: Machine, addr: bv16, val: bv8)
    requires m.Valid() && !Hole(m.video.board, addr, val)
    ensures Write(Flush(m), addr, val) == Reply(Flush(Write(m, addr, val).m), Write(m, addr, val).byte)
  {
    if NeedsFlush(addr, true) {
      SettledWriteCommutes(m, addr, val);
    } else {
      FlushTwice(m);
      if 0x4000 <= addr < 0x5000 {
        IoWriteCommutes(m, (addr & 0xff) as bv8, val);
        hide Flush, WriteIo;
      } else if 0x5000 <= addr < 0x6000 {
        MapperWriteCommutes(m, addr, val);
        hide Flush, WriteMapper;
      } else {
        hide Ticks;
      }
    }
  }

  // ------------------------------------------------------------- whole runs

  /** The dot count of an instruction goes through an 8-bit loop counter. */
  type Dots = n: nat | n < 256

  /** What the processor does next.  `Finish` ends an instruction: it charges its dots and
    then looks at the interrupt flag; `Acknowledge` is the end of an interrupt sequence. */
  datatype Action = Load(addr: bv16) | StoreTo(addr: bv16, val: bv8) | Acknowledge | Finish(dots: Dots)

  /** A processor with its program: what it does after the answers it has had so far. */
  type Program = seq<bv8> -> Action

  datatype Run = Run(m: Machine, heard: seq<bv8>)

  function FinishLazily(m: Machine, dots: Dots): (q: Machine)
    requires m.Valid()
    ensures q.Valid()
  {
    if CanDefer(m, dots) then m.(pending := m.pending + dots)
    else Flush(m).(video := Ticks(Flush(m).video, dots))
  }

  function FinishEagerly(m: Machine, dots: Dots): (q: Machine)
    requires m.Valid() && m.pending == 0
    ensures q.Valid() && q.pending == 0
  {
    m.(video := Ticks(m.video, dots))
  }

  function Do(lazy: bool, r: Run, a: Action): (q: Run)
    requires r.m.Valid() && (!lazy ==> r.m.pending == 0)
    ensures q.m.Valid() && (!lazy ==> q.m.pending == 0)
  {
    match a
    case Load(addr) =>
      var reply := Read(r.m, addr);
      Run(reply.m, r.heard + [reply.byte])
    case StoreTo(addr, val) => Run(Write(r.m, addr, val).m, r.heard)
    case Acknowledge => Run(r.m.(video := r.m.video.(nmiIrq := 0)), r.heard)
    case Finish(dots) =>
      var m := if lazy then FinishLazily(r.m, dots) else FinishEagerly(r.m, dots);
      Run(m, r.heard + [m.video.nmiIrq])
  }

  function RunFor(lazy: bool, program: Program, m: Machine, n: nat): (r: Run)
    requires m.Valid() && m.pending == 0
    ensures r.m.Valid() && (!lazy ==> r.m.pending == 0)
  {
    if n == 0 then Run(m, [])
    else
      var r := RunFor(lazy, program, m, n - 1);
      Do(lazy, r, program(r.heard))
  }

  /** The lazy run never stores through a hole while dots are pending. */
  ghost predicate AvoidsHoles(program: Program, m: Machine, n: nat)
    requires m.Valid() && m.pending == 0
  {
    forall k | 0 <= k < n ::
      var r := RunFor(true, program, m, k);
      var a := program(r.heard);
      a.StoreTo? && r.m.pending > 0 ==> !Hole(r.m.video.board, a.addr, a.val)
  }

  lemma FinishCommutes(m: Machine, dots: Dots)
    requires m.Valid()
    ensures FinishEagerly(Flush(m), dots) == Flush(FinishLazily(m, dots))
  {
    hide Ticks;
    if CanDefer(m, dots) {
      PendingAdd(m, dots);
    } else {
      FlushSettled(FinishLazily(m, dots));
    }
  }

  lemma PendingAdd(m: Machine, dots: Dots)
    requires m.Valid()
    ensures Ticks(m.video, m.pending + dots) == Ticks(Flush(m).video, dots)
  {
    TicksAdd(m.video, m.pending, dots);
    hide Ticks;
  }

  lemma LineAcknowledged(v: Video)
    requires v.Valid() && v.line.scany < 240
    ensures LineReady(v.(nmiIrq := 0)) == LineReady(v).(nmiIrq := 0)
  {
    hide SpriteLine;
    assert v.(nmiIrq := 0).AsSprites() == v.AsSprites();
  }

  lemma AcknowledgeCommutes(m: Machine)
    requires m.Valid()
    ensures Flush(m.(video := m.video.(nmiIrq := 0))) == Flush(m).(video := Flush(m).video.(nmiIrq := 0))
  {
    if m.pending > 0 {
      VisibleTicks(m.video, m.pending);
      VisibleTicks(m.video.(nmiIrq := 0), m.pending);
      LineAcknowledged(m.video);
      var l := LineReady(m.video);
      assert l.(nmiIrq := 0).AsScene() == l.AsScene();
      hide Pixels, StartLine;
    }
  }

  lemma DoCommutes(r: Run, a: Action)
    requires r.m.Valid()
    requires a.StoreTo? && r.m.pending > 0 ==> !Hole(r.m.video.board, a.addr, a.val)
    ensures Do(false, Run(Flush(r.m), r.heard), a) == Run(Flush(Do(true, r, a).m), Do(true, r, a).heard)
  {
    match a {
      case Load(addr) => ReadCommutes(r.m, addr); hide Flush, Read;
      case StoreTo(addr, val) =>
        if r.m.pending > 0 {
          WriteCommutes(r.m, addr, val);
        } else {
          FlushSettled(r.m);
          FlushSettled(Write(r.m, addr, val).m);
        }
        hide Flush, Write;
      case Acknowledge => AcknowledgeCommutes(r.m); hide Flush;
      case Finish(dots) =>
        FinishCommutes(r.m, dots);
        FlushKeepsOutside(FinishLazily(r.m, dots));
        hide Flush, FinishLazily, FinishEagerly;
    }
  }

  lemma RunForStep(lazy: bool, program: Program, m: Machine, n: nat)
    requires m.Valid() && m.pending == 0 && n > 0
    ensures var r := RunFor(lazy, program, m, n - 1);
            RunFor(lazy, program, m, n) == Do(lazy, r, program(r.heard))
  {
    hide Do;
  }

  lemma AvoidsFewer(program: Program, m: Machine, n: nat)
    requires m.Valid() && m.pending == 0 && n > 0 && AvoidsHoles(program, m, n)
    ensures AvoidsHoles(program, m, n - 1)
    ensures var r := RunFor(true, program, m, n - 1);
            var a := program(r.heard);
            a.StoreTo? && r.m.pending > 0 ==> !Hole(r.m.video.board, a.addr, a.val)
  {
    hide RunFor, Hole;
  }

  /** Main result: a program that keeps away from the holes cannot tell an emulator that
    postpones visible dots from one that runs every instruction's dots at once.  Every
    `mem` call answers the same, every interrupt is seen at the same instruction, the same
    frames have been submitted, and settling the pending dots gives the eager machine. */
  lemma {:induction false} LazyRunIsEagerRun(program: Program, m: Machine, n: nat)
    requires m.Valid() && m.pending == 0 && AvoidsHoles(program, m, n)
    ensures RunFor(true, program, m, n).heard == RunFor(false, program, m, n).heard
    ensures RunFor(true, program, m, n).m.video.frames == RunFor(false, program, m, n).m.video.frames
    ensures RunFor(true, program, m, n).m.video.nmiIrq == RunFor(false, program, m, n).m.video.nmiIrq
    ensures Flush(RunFor(true, program, m, n).m) == RunFor(false, program, m, n).m
  {
    hide Flush, Do, Hole, RunFor, AvoidsHoles;
    if n == 0 {
      NothingRun(program, m);
      FlushSettled(m);
    } else {
      AvoidsFewer(program, m, n);
      LazyRunIsEagerRun(program, m, n - 1);
      RunForStep(true, program, m, n);
      RunForStep(false, program, m, n);
      var r := RunFor(true, program, m, n - 1);
      DoCommutes(r, program(r.heard));
    }
    FlushKeepsOutside(RunFor(true, program, m, n).m);
  }

  lemma NothingRun(program: Program, m: Machine)
    requires m.Valid() && m.pending == 0
    ensures RunFor(true, program, m, 0) == RunFor(false, program, m, 0) == Run(m, [])
  {
  }
}
