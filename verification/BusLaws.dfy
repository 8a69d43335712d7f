/** What a program gets back from memory, the picture ports, the sprite DMA and the joypad. */
module BusLaws {
  import opened PpuModel
  import opened CpuBus
  import opened PostponedDots
  import opened Scrolling

  // -------------------------------------------------------------------- memory

  /** Work memory and cartridge memory keep what is stored, each cell apart. */
  lemma MemoryLaw(m: Machine, addr: bv16, val: bv8, a: bv16)
    requires m.Valid() && (addr < 0x2000 || 0x6000 <= addr < 0x8000) && (a < 0x2000 || 0x6000 <= a < 0x8000)
    ensures Read(Write(m, addr, val).m, a).byte == if a == addr then val else Read(m, a).byte
  {
    hide Flush, Offset;
    if addr < 0x2000 <==> a < 0x2000 {
      DistinctCells(addr, a);
    }
  }

  lemma DistinctCells(addr: bv16, a: bv16)
    requires (addr < 0x2000 && a < 0x2000) || (0x6000 <= addr < 0x8000 && 0x6000 <= a < 0x8000)
    ensures Offset(addr) == Offset(a) <==> addr == a
  {
    SameCell(addr, a);
    SameNumber(addr & 0x1fff, a & 0x1fff);
  }

  lemma SameCell(addr: bv16, a: bv16)
    requires (addr < 0x2000 && a < 0x2000) || (0x6000 <= addr < 0x8000 && 0x6000 <= a < 0x8000)
    ensures addr & 0x1fff == a & 0x1fff <==> addr == a
  {
  }

  lemma SameNumber(x: bv16, y: bv16)
    ensures x as nat == y as nat <==> x == y
  {
    BackAgain(x);
    BackAgain(y);
  }

  lemma BackAgain(x: bv16)
    ensures (x as nat) as bv16 == x
  {
  }

  // --------------------------------------------------------------------- ports

  /** The mirrors of a port are the port. */
  lemma PortsAreMirrored(m: Machine, addr: bv16, val: bv8)
    requires m.Valid() && 0x2000 <= addr < 0x4000
    ensures Write(m, addr, val) == Write(m, 0x2000 + (addr & 7), val) && Read(m, addr) == Read(m, 0x2000 + (addr & 7))
  {
    hide Flush, ReadRegister, WriteRegister;
    assert (0x2000 + (addr & 7)) & 7 == addr & 7 && 0x2000 <= 0x2000 + (addr & 7) < 0x4000;
  }

  /** A store to a port settles the dots and then is the port's own. */
  lemma PortStore(m: Machine, port: bv16, val: bv8)
    requires m.Valid() && port < 8
    ensures var q := Write(m, 0x2000 + port, val).m;
            && q.Valid() && q.pending == 0 && q.video == WritePort(Flush(m).video, port as bv8, val).0
  {
    hide Flush, WritePort;
    assert (0x2000 + port) & 7 == port;
  }

  lemma PortLoad(m: Machine, port: bv16)
    requires m.Valid() && port < 8
    ensures var r := Read(m, 0x2000 + port);
            && r.m.Valid() && r.m.pending == 0 && (r.m.video, r.byte) == ReadPort(Flush(m).video, port as bv8)
  {
    hide Flush, ReadPort;
    assert (0x2000 + port) & 7 == port;
  }

  /** A status read gives the upper three flags, and takes the vertical blank flag and the
    write toggle away. */
  lemma StatusLaw(m: Machine)
    requires m.Valid()
    ensures var r := Read(m, 0x2002);
            && r.byte == Flush(m).video.raster.status & 0xe0
            && r.m.video.raster.status == Flush(m).video.raster.status & 0x7f && !r.m.video.ports.w
            && Read(r.m, 0x2002).byte & 0x80 == 0
  {
    hide Flush;
    PortLoad(m, 2);
    PortLoad(Read(m, 0x2002).m, 2);
    FlushSettled(Read(m, 0x2002).m);
  }

  /** Two stores to the address port set V, high byte first. */
  lemma AddressLaw(m: Machine, high: bv8, low: bv8)
    requires m.Valid() && !m.video.ports.w
    ensures var q := Write(Write(m, 0x2006, high).m, 0x2006, low).m;
            && q.Valid() && q.pending == 0 && !q.video.ports.w
            && q.video.raster.latches.v == (((high & 63) as bv16) << 8) | (low as bv16)
            && q.video == Flush(m).video.(ports := q.video.ports, raster := q.video.raster)
            && q.video.ports.ctrl == m.video.ports.ctrl && q.video.ports.buf == m.video.ports.buf
  {
    hide Flush;
    FlushKeepsOutside(m);
    PortStore(m, 6, high);
    var p := Write(m, 0x2006, high).m;
    FlushSettled(p);
    PortStore(p, 6, low);
    AddressBits(m.video.ports.t, high, low);
  }

  lemma AddressBits(t: bv16, high: bv8, low: bv8)
    ensures var u := (t & 0xff) | (((high as bv16) & 63) << 8);
            (u & 0xff00) | (low as bv16) == (((high & 63) as bv16) << 8) | (low as bv16)
  {
  }

  /** A store to the control port and two to the scroll port set the place of the picture: the
    nametable, column and line in T, the pixel within the tile in `fine_x`; V stays. */
  lemma ScrollLaw(m: Machine, ctrl: bv8, x: bv8, y: bv8)
    requires m.Valid() && !m.video.ports.w
    ensures var q := Write(Write(Write(m, 0x2000, ctrl).m, 0x2005, x).m, 0x2005, y).m;
            && q.Valid() && q.pending == 0 && !q.video.ports.w && q.video.ports.ctrl == ctrl
            && q.video.ports.fineX == x & 7 && Col(q.video.ports.t) == 32 * ((ctrl & 1) as bv16) + ((x >> 3) as bv16)
            && Lower(q.video.ports.t) == ((ctrl >> 1) & 1) as bv16 && RowIn(q.video.ports.t) == y as bv16
            && q.video.ports.t & 0x8000 == m.video.ports.t & 0x8000
            && q.video.raster == Flush(m).video.raster
  {
    hide Flush, Col, Lower, RowIn;
    FlushKeepsOutside(m);
    PortStore(m, 0, ctrl);
    var a := Write(m, 0x2000, ctrl).m;
    FlushSettled(a);
    PortStore(a, 5, x);
    var b := Write(a, 0x2005, x).m;
    FlushSettled(b);
    PortStore(b, 5, y);
    ScrollBits(m.video.ports.t, ctrl, x, y);
  }

  lemma ScrollBits(t: bv16, ctrl: bv8, x: bv8, y: bv8)
    ensures var c := (t & 0xf3ff) | (((ctrl as bv16) & 3) << 10);
            var h := (c & 0xffe0) | ((x as bv16) >> 3);
            var q := (h & 0x8c1f) | (((y as bv16) & 7) << 12) | (((y as bv16) << 2) & 0x3e0);
            && Col(q) == 32 * ((ctrl & 1) as bv16) + ((x >> 3) as bv16)
            && Lower(q) == ((ctrl >> 1) & 1) as bv16 && RowIn(q) == y as bv16 && q & 0x8000 == t & 0x8000
  {
  }

  // --------------------------------------------------------------- video memory

  /** V after an access to the data port. */
  function Onward(m: Machine): bv16 {
    (m.video.raster.latches.v + (if m.video.ports.ctrl & 4 != 0 then 32 else 1)) & 0x3fff
  }

  /** A load from the data port gives the buffer, fills it from where V points and moves V. */
  lemma DataLoad(m: Machine)
    requires m.Valid() && m.pending == 0
    ensures var r := Read(m, 0x2007);
            && r.m.Valid() && r.m.pending == 0 && r.byte == m.video.ports.buf
            && r.m.video.ports.buf == DataPortByte(m.video) && r.m.video.raster.latches.v == Onward(m)
            && r.m.video.vram == m.video.vram && r.m.video.palette == m.video.palette
            && r.m.video.chrData == m.video.chrData && r.m.video.cart == m.video.cart
  {
    hide Flush, DataPortByte;
    FlushSettled(m);
    PortLoad(m, 7);
  }

  /** What is stored through the data port below $3f00 is there: with V set back, the second
    load gives it. */
  lemma NametableKeeps(m: Machine, high: bv8, low: bv8, val: bv8)
    requires m.Valid() && !m.video.ports.w && 0x20 <= high & 63 < 0x3f
    ensures var p := Write(Write(Write(m, 0x2006, high).m, 0x2006, low).m, 0x2007, val).m;
            var q := Write(Write(p, 0x2006, high).m, 0x2006, low).m;
            q.Valid() && Read(Read(q, 0x2007).m, 0x2007).byte == val
  {
    hide Flush, Write, Read, NametableIndex, DataPortByte;
    AddressLaw(m, high, low);
    var a := Write(Write(m, 0x2006, high).m, 0x2006, low).m;
    var v := a.video.raster.latches.v;
    NametableAddress(high, low);
    NametableStore(a, val);
    var p := Write(a, 0x2007, val).m;
    AddressLaw(p, high, low);
    var q := Write(Write(p, 0x2006, high).m, 0x2006, low).m;
    FlushSettled(p);
    NametableByteIs(q.video);
    DataLoad(q);
    DataLoad(Read(q, 0x2007).m);
  }

  lemma NametableAddress(high: bv8, low: bv8)
    requires 0x20 <= high & 63 < 0x3f
    ensures 8192 <= (((high & 63) as bv16) << 8) | (low as bv16) < 16128
  {
  }

  lemma NametableByteIs(v: Video)
    requires v.Valid() && 8192 <= v.raster.latches.v < 16128
    ensures DataPortByte(v) == v.vram[NametableIndex(v.cart.mirror, v.raster.latches.v)]
  {
    hide NametableIndex;
  }

  lemma NametableStore(m: Machine, val: bv8)
    requires m.Valid() && m.pending == 0 && 8192 <= m.video.raster.latches.v < 16128
    ensures var q := Write(m, 0x2007, val).m;
            && q.Valid() && q.pending == 0 && q.video.cart.mirror == m.video.cart.mirror
            && q.video.vram == m.video.vram[NametableIndex(m.video.cart.mirror, m.video.raster.latches.v) := val]
            && q.video.ports == m.video.ports
  {
    hide Flush, NametableIndex;
    FlushSettled(m);
    PortStore(m, 7, val);
  }

  /** Pattern memory keeps what is stored when it is RAM, and is left alone when it is not. */
  lemma PatternKeeps(m: Machine, high: bv8, low: bv8, val: bv8)
    requires m.Valid() && !m.video.ports.w && high & 63 < 0x20
    ensures var a := Write(Write(m, 0x2006, high).m, 0x2006, low).m;
            var p := Write(a, 0x2007, val).m;
            var q := Write(Write(p, 0x2006, high).m, 0x2006, low).m;
            && q.Valid() && a.Valid()
            && (m.video.board.chrIsRam ==> Read(Read(q, 0x2007).m, 0x2007).byte == val)
            && (!m.video.board.chrIsRam ==> p.video.chrData == a.video.chrData)
  {
    hide Flush, Write, Read, ChrIndex, DataPortByte, Store;
    AddressLaw(m, high, low);
    FlushKeepsOutside(m);
    var a := Write(Write(m, 0x2006, high).m, 0x2006, low).m;
    PatternAddressIs(high, low);
    PatternStored(a, val);
    var p := Write(a, 0x2007, val).m;
    AddressLaw(p, high, low);
    var q := Write(Write(p, 0x2006, high).m, 0x2006, low).m;
    FlushSettled(p);
    PatternByteIs(q.video);
    StoredThere(a.video.chrData, ChrIndex(a.video.board, a.video.cart.chr, a.video.raster.latches.v), val);
    DataLoad(q);
    DataLoad(Read(q, 0x2007).m);
  }

  lemma PatternAddressIs(high: bv8, low: bv8)
    requires high & 63 < 0x20
    ensures (((high & 63) as bv16) << 8) | (low as bv16) < 8192
  {
  }

  lemma StoredThere(f: nat -> bv8, k: nat, val: bv8)
    ensures Store(f, k, val)(k) == val && forall i: nat | i != k :: Store(f, k, val)(i) == f(i)
  {
  }

  lemma PatternStored(m: Machine, val: bv8)
    requires m.Valid() && m.pending == 0 && m.video.raster.latches.v < 8192
    ensures var q, v := Write(m, 0x2007, val).m, m.video;
            && q.Valid() && q.pending == 0 && q.video.ports == v.ports && q.video.board == v.board
            && q.video.cart == v.cart
            && q.video.chrData == (if v.board.chrIsRam
                                   then Store(v.chrData, ChrIndex(v.board, v.cart.chr, v.raster.latches.v), val)
                                   else v.chrData)
  {
    hide Flush, ChrIndex, Store;
    FlushSettled(m);
    PortStore(m, 7, val);
  }

  lemma PatternByteIs(v: Video)
    requires v.Valid() && v.raster.latches.v < 8192
    ensures DataPortByte(v) == v.chrData(ChrIndex(v.board, v.cart.chr, v.raster.latches.v))
  {
    hide ChrIndex;
  }

  /** Entry `e` of the palettes stands at $3f00 + `e`, and entry 0 of each sprite palette is the
    background's. */
  lemma PaletteCells(e: bv16)
    requires e < 32
    ensures PaletteIndex(0x3f00 + e) == if e >= 16 && e & 3 == 0 then (e - 16) as nat else e as nat
  {
    EntryBits(e);
    Narrow(if e >= 16 && e & 3 == 0 then e - 16 else e);
  }

  lemma EntryBits(e: bv16)
    requires e < 32
    ensures var a := 0x3f00 + e;
            (if a & 19 == 16 then a ^ 16 else a) & 0xff == if e >= 16 && e & 3 == 0 then e - 16 else e
  {
  }

  lemma Narrow(e: bv16)
    requires e < 32
    ensures (e as bv8) as nat == e as nat
  {
  }

  lemma PaletteStore(m: Machine, val: bv8)
    requires m.Valid() && m.pending == 0 && 16128 <= m.video.raster.latches.v
    ensures var q := Write(m, 0x2007, val).m;
            && q.Valid() && q.pending == 0 && q.video.ports == m.video.ports
            && q.video.palette == m.video.palette[PaletteIndex(m.video.raster.latches.v) := val]
  {
    hide Flush, PaletteIndex;
    FlushSettled(m);
    PortStore(m, 7, val);
  }

  lemma PaletteByteIs(v: Video)
    requires v.Valid() && 16128 <= v.raster.latches.v
    ensures DataPortByte(v) == v.palette[PaletteIndex(v.raster.latches.v)]
  {
    hide PaletteIndex;
  }

  lemma PaletteAddress(high: bv8, low: bv8)
    requires high & 63 == 0x3f
    ensures 16128 <= (((high & 63) as bv16) << 8) | (low as bv16)
  {
  }

  /** So is what is stored from $3f00 on; the load is buffered there too. */
  lemma PaletteKeeps(m: Machine, high: bv8, low: bv8, val: bv8)
    requires m.Valid() && !m.video.ports.w && high & 63 == 0x3f
    ensures var p := Write(Write(Write(m, 0x2006, high).m, 0x2006, low).m, 0x2007, val).m;
            var q := Write(Write(p, 0x2006, high).m, 0x2006, low).m;
            q.Valid() && Read(Read(q, 0x2007).m, 0x2007).byte == val
  {
    hide Flush, Write, Read, PaletteIndex, DataPortByte;
    AddressLaw(m, high, low);
    var a := Write(Write(m, 0x2006, high).m, 0x2006, low).m;
    PaletteAddress(high, low);
    PaletteStore(a, val);
    var p := Write(a, 0x2007, val).m;
    AddressLaw(p, high, low);
    var q := Write(Write(p, 0x2006, high).m, 0x2006, low).m;
    FlushSettled(p);
    PaletteByteIs(q.video);
    DataLoad(q);
    DataLoad(Read(q, 0x2007).m);
  }

  // ------------------------------------------------------------------ sprite DMA

  /** The DMA from a page of work memory loads sprite cell `i` with byte `i` of the page. */
  lemma {:induction false} DmaLoads(m: Machine, page: bv8, n: nat)
    requires m.Valid() && page < 0x20 && n <= 256
    ensures var q := SpriteDma(m, page, n);
            && q.video == m.video.(oam := q.video.oam) && q.ram == m.ram && q.pending == m.pending
            && |q.video.oam| == 256
            && forall i: nat | i < 256 ::
                 q.video.oam[i] == if i < n then m.ram[Offset(DmaAddress(page, i))] else m.video.oam[i]
    decreases n
  {
    hide DmaAddress, Offset;
    if n > 0 {
      DmaRound(m, page, n - 1);
      DmaLoads(DmaStep(m, page, n - 1), page, n - 1);
    }
  }

  function DmaAddress(page: bv8, i: nat): bv16
    requires i < 256
  {
    ((page as bv16) << 8) | (i as bv16)
  }

  lemma RoundReads(m: Machine, page: bv8, i: nat)
    requires m.Valid() && i < 256
    ensures var r := Read(m, DmaAddress(page, i));
            DmaStep(m, page, i) == r.m.(video := StoreSprite(r.m.video, i, r.byte))
  {
    hide Read;
  }

  lemma WorkLoad(m: Machine, a: bv16)
    requires m.Valid() && a < 0x2000
    ensures Read(m, a) == Reply(m, m.ram[Offset(a)])
  {
    hide Offset, Flush;
  }

  lemma DmaRound(m: Machine, page: bv8, i: nat)
    requires m.Valid() && page < 0x20 && i < 256
    ensures var q := DmaStep(m, page, i);
            && q.video == m.video.(oam := m.video.oam[i := m.ram[Offset(DmaAddress(page, i))]])
            && q.ram == m.ram && q.pending == m.pending
  {
    hide Offset, Read, DmaStep, DmaAddress;
    InWorkPage(page, i);
    RoundReads(m, page, i);
    WorkLoad(m, DmaAddress(page, i));
  }

  lemma InWorkPage(page: bv8, i: nat)
    requires page < 0x20 && i < 256
    ensures DmaAddress(page, i) < 0x2000
  {
    WorkPage(page, i as bv16);
  }

  lemma WorkPage(page: bv8, i: bv16)
    requires page < 0x20 && i < 256
    ensures ((page as bv16) << 8) | i < 0x2000
  {
  }

  /** Main result: a store to $4014 copies a page of work memory into the sprite cells. */
  lemma DmaLaw(m: Machine, page: bv8, i: nat)
    requires m.Valid() && page < 0x20 && i < 256
    ensures var q := Write(m, 0x4014, page).m;
            q.Valid() && |q.video.oam| == 256 && q.video.oam[i] == Read(m, DmaAddress(page, i)).byte
  {
    hide Flush, Offset, SpriteDma, DmaAddress, Read;
    var f := Flush(m);
    DmaLoads(f, page, 256);
    DmaPort();
    FlushKeepsRam(m);
    InWorkPage(page, i);
    WorkLoad(m, DmaAddress(page, i));
  }

  lemma DmaPort()
    ensures ((0x4014 as bv16) & 0xff) as bv8 == 20
  {
  }

  lemma FlushKeepsRam(m: Machine)
    requires m.Valid()
    ensures Flush(m).ram == m.ram
  {
    hide Ticks;
  }

  // --------------------------------------------------------------------- joypad

  /** The joypad is sampled by a store to $4016, and each load gives the next button. */
  lemma PadLaw(m: Machine, val: bv8, k: nat)
    requires m.Valid() && k < 8
    ensures var keys := m.inputs.pad(m.clock);
            && PadLoads(Write(m, 0x4016, val).m, k).Valid()
            && Read(PadLoads(Write(m, 0x4016, val).m, k), 0x4016).byte == (keys >> (k as bv8)) & 1
  {
    hide Flush;
    var q := Write(m, 0x4016, val).m;
    assert (0x4016 as bv16) & 0xff == 22;
    PadShifted(q, k);
    ShiftedIs(q.keys, k, k as bv8);
    PadLoad(PadLoads(q, k));
  }

  function PadLoads(m: Machine, k: nat): (q: Machine)
    requires m.Valid()
    ensures q.Valid()
  {
    if k == 0 then m else Read(PadLoads(m, k - 1), 0x4016).m
  }

  lemma PadLoad(m: Machine)
    requires m.Valid()
    ensures Read(m, 0x4016).byte == m.keys & 1 && Read(m, 0x4016).m.keys == m.keys >> 1
  {
    hide Flush;
    assert (0x4016 as bv16) & 0xff == 22;
  }

  function Shifted(x: bv8, k: nat): bv8 { if k == 0 then x else Shifted(x, k - 1) >> 1 }

  lemma {:induction false} PadShifted(m: Machine, k: nat)
    requires m.Valid()
    ensures PadLoads(m, k).keys == Shifted(m.keys, k)
  {
    hide Read;
    if k > 0 {
      PadShifted(m, k - 1);
      PadLoad(PadLoads(m, k - 1));
    }
  }

  lemma {:induction false} ShiftedIs(x: bv8, k: nat, j: bv8)
    requires k < 8 && j == k as bv8
    ensures Shifted(x, k) == x >> j
  {
    if k > 0 {
      NextNumber(k);
      ShiftedIs(x, k - 1, j - 1);
      ShiftMore(x, j - 1);
    }
  }

  lemma NextNumber(k: nat)
    requires 0 < k < 8
    ensures (k - 1) as bv8 < 7 && (k - 1) as bv8 + 1 == k as bv8
  {
  }

  lemma ShiftMore(x: bv8, k: bv8)
    requires k < 7
    ensures (x >> k) >> 1 == x >> (k + 1)
  {
  }
}
