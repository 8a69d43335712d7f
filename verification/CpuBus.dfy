/** The processor's side of the emulator: what one call of `mem` does, and how a program
  drives the picture unit, either letting it run at once or postponing visible dots.
 */
module CpuBus {
  import opened PpuModel

  /** Values the outside world supplies, one per access to the $4xxx page. */
  datatype Inputs = Inputs(apu: nat -> bv8, pad: nat -> bv8)

  datatype Machine = Machine(
    video: Video, ram: seq<bv8>, prgram: seq<bv8>, keys: bv8, inputs: Inputs, clock: nat, pending: nat)
  {
    /** Pending dots are visible dots of the current scanline with rendering on. */
    ghost predicate Valid() {
      && video.Valid() && |ram| == 8192 && |prgram| == 8192
      && (pending > 0 ==> video.Rendering() && video.line.scany < 240 && video.raster.dot + pending <= 256)
    }
  }

  datatype Reply = Reply(m: Machine, byte: bv8)

  // ---------------------------------------------------------- postponed dots

  predicate CanDefer(m: Machine, n: nat) {
    m.video.Rendering() && m.video.line.scany < 240 && m.video.raster.dot < 256
    && m.video.raster.dot + m.pending + n <= 256
  }

  /** Run the pending dots now. */
  function Flush(m: Machine): (q: Machine)
    requires m.Valid()
    ensures q.Valid() && q.pending == 0 && |q.video.oam| == |m.video.oam|
  {
    m.(video := Ticks(m.video, m.pending), pending := 0)
  }

  function NeedsFlush(addr: bv16, write: bool): bool {
    0x2000 <= addr < 0x4000 || (write && (addr == 0x4014 || addr >= 0x8000))
  }

  function Settle(m: Machine, addr: bv16, write: bool): (q: Machine)
    requires m.Valid()
    ensures q.Valid() && (NeedsFlush(addr, write) || m.pending == 0 ==> q.pending == 0)
  {
    if NeedsFlush(addr, write) then Flush(m) else m
  }

  // ----------------------------------------------------------- PPU registers

  /** Every access to $2007 moves V by 1 or 32. */
  function StepDataPort(v: Video): (q: Video)
    requires v.Valid()
    ensures q.Valid()
  {
    v.WithLatches(v.raster.latches.(v := (v.raster.latches.v + (if v.ports.ctrl & 4 != 0 then 32 else 1)) & 0x3fff))
  }

  function PaletteIndex(a: bv16): (i: nat)
    ensures i < 256
  {
    (((if a & 19 == 16 then a ^ 16 else a) & 0xff) as bv8) as nat
  }

  function DataPortByte(v: Video): bv8
    requires v.Valid()
  {
    var a := v.raster.latches.v;
    if a < 8192 then v.AsBus().Chr(a)
    else if a < 16128 then v.AsBus().Nametable(a)
    else v.palette[PaletteIndex(a)]
  }

  /** Read of $2007. */
  function ReadDataPort(v: Video): (r: (Video, bv8))
    requires v.Valid()
    ensures r.0.Valid()
  {
    (StepDataPort(v).(ports := v.ports.(buf := DataPortByte(v))), v.ports.buf)
  }

  function Store(f: nat -> bv8, k: nat, val: bv8): nat -> bv8 {
    (i: nat) => if i == k then val else f(i)
  }

  /** Write of $2007: pattern memory only takes it when it is RAM. */
  function WriteDataPort(v: Video, val: bv8): (r: (Video, bv8))
    requires v.Valid()
    ensures r.0.Valid()
  {
    var a := v.raster.latches.v;
    var next := StepDataPort(v);
    if a < 8192 then
      if v.board.chrIsRam
      then (next.(chrData := Store(v.chrData, ChrIndex(v.board, v.cart.chr, a), val)), v.ports.buf)
      else (next, val)
    else if a < 16128 then (next.(vram := v.vram[NametableIndex(v.cart.mirror, a) := val]), v.ports.buf)
    else (next.(palette := v.palette[PaletteIndex(a) := val]), v.ports.buf)
  }

  /** Reading $2002, and writing it, returns the flags, clears vblank and the toggle. */
  function StatusPort(v: Video): (r: (Video, bv8))
    requires v.Valid()
    ensures r.0.Valid()
  {
    (v.(raster := v.raster.(status := v.raster.status & 0x7f), ports := v.ports.(w := false)), v.raster.status & 0xe0)
  }

  function ReadPort(v: Video, port: bv8): (r: (Video, bv8))
    requires v.Valid()
    ensures r.0.Valid()
  {
    if port == 7 then ReadDataPort(v)
    else if port == 2 then StatusPort(v)
    else (v, 255)
  }

  /** First and second write of the scroll port. */
  function WriteScroll(v: Video, val: bv8): (q: Video)
    requires v.Valid()
    ensures q.Valid()
  {
    var x := val as bv16;
    var p := v.ports;
    if !p.w then v.(ports := p.(w := true, fineX := val & 7, t := (p.t & 0xffe0) | (x >> 3)))
    else v.(ports := p.(w := false, t := (p.t & 0x8c1f) | ((x & 7) << 12) | ((x << 2) & 0x3e0)))
  }

  /** First and second write of the address port: only the second one moves V. */
  function WriteAddress(v: Video, val: bv8): (q: Video)
    requires v.Valid()
    ensures q.Valid()
  {
    var x := val as bv16;
    var p := v.ports;
    if !p.w then v.(ports := p.(w := true, t := (p.t & 0xff) | ((x & 63) << 8)))
    else
      var a := (p.t & 0xff00) | x;
      v.WithLatches(v.raster.latches.(v := a)).(ports := p.(w := false, t := a))
  }

  function WriteControl(v: Video, val: bv8): (q: Video)
    requires v.Valid()
    ensures q.Valid()
  {
    v.(ports := v.ports.(ctrl := val, t := (v.ports.t & 0xf3ff) | (((val as bv16) & 3) << 10)))
  }

  function WritePort(v: Video, port: bv8, val: bv8): (r: (Video, bv8))
    requires v.Valid()
    ensures r.0.Valid()
  {
    if port == 7 then WriteDataPort(v, val)
    else if port == 0 then (WriteControl(v, val), 255)
    else if port == 1 then (v.(ports := v.ports.(mask := val)), 255)
    else if port == 5 then (WriteScroll(v, val), 255)
    else if port == 6 then (WriteAddress(v, val), 255)
    else if port == 2 then StatusPort(v)
    else (v, 255)
  }

  // ----------------------------------------------------------------- mappers

  /** The upper three address bits. */
  function Region(addr: bv16): bv8 { ((addr >> 13) & 7) as bv8 }

  /** The register a command selects. */
  function Selected(cmd: bv8): (i: nat)
    ensures i < 8
  {
    (cmd & 7) as nat
  }

  /** Bank numbers that follow from the MMC3 registers. */
  function Mapper4Banks(b: Board, c: CartRegs): CartRegs {
    var s := c.mmc3ChrPrg;
    var pairs := [s[0] & 0xfe, s[0] | 1, s[1] & 0xfe, s[1] | 1];
    var singles := [s[2], s[3], s[4], s[5]];
    var last := b.prgBanks * 2 - 1;
    c.(chr := if (c.mmc3Bits >> 5) & 4 == 0 then pairs + singles else singles + pairs,
       prg := if (c.mmc3Bits >> 5) & 2 == 0 then [s[6], s[7], last - 1, last] else [last - 1, s[7], s[6], last])
  }

  function Mapper4(b: Board, c: CartRegs, addr: bv16, val: bv8): CartRegs {
    var odd := addr & 1 != 0;
    var region := Region(addr);
    if region == 4 then
      Mapper4Banks(b, if odd then c.(mmc3ChrPrg := c.mmc3ChrPrg[Selected(c.mmc3Bits) := val]) else c.(mmc3Bits := val))
    else if region == 5 then (if odd then c else c.(mirror := 2 + (val & 1)))
    else if region == 6 then (if odd then c else c.(mmc3Latch := val))
    else if region == 7 then c.(mmc3Irq := if odd then 1 else 0)
    else c
  }

  /** Bank numbers that follow from the MMC1 registers. */
  function Mapper1Banks(b: Board, c: CartRegs): CartRegs {
    var split := c.mmc1Ctrl & 16 != 0;
    var mode := (c.mmc1Ctrl >> 2) & 3;
    var chr0 := if split then c.chrBank0 else c.chrBank0 & 0xfe;
    var chr1 := if split then c.chrBank1 else c.chrBank0 | 1;
    var prg0 := if mode == 2 then 0 else if mode == 3 then c.prgBank else c.prgBank & 0xfe;
    var prg1 := if mode == 2 then c.prgBank else if mode == 3 then b.prgBanks - 1 else c.prgBank | 1;
    c.(chr := c.chr[0 := chr0][1 := chr1], prg := c.prg[0 := prg0][1 := prg1])
  }

  /** The fifth write of a serial transfer lands in the register its address names. */
  function Mapper1Load(c: CartRegs, addr: bv16): CartRegs {
    var region := Region(addr);
    var d := c.mmc1Data;
    if region == 4 then c.(mmc1Bits := 5, mirror := d & 3, mmc1Ctrl := d)
    else if region == 5 then c.(mmc1Bits := 5, chrBank0 := d)
    else if region == 6 then c.(mmc1Bits := 5, chrBank1 := d)
    else c.(mmc1Bits := 5, prgBank := d)
  }

  function Mapper1(b: Board, c: CartRegs, addr: bv16, val: bv8): CartRegs {
    if val & 0x80 != 0 then c.(mmc1Bits := 5, mmc1Data := 0, mmc1Ctrl := c.mmc1Ctrl | 12)
    else
      var c1 := c.(mmc1Data := (c.mmc1Data >> 1) | ((val << 4) & 16), mmc1Bits := c.mmc1Bits - 1);
      if c1.mmc1Bits == 0 then Mapper1Banks(b, Mapper1Load(c1, addr)) else c1
  }

  function MapperWrite(b: Board, c: CartRegs, addr: bv16, val: bv8): CartRegs {
    if b.mapper == 7 then
      c.(mirror := if val >> 4 == 0 then 1 else 0, prg := c.prg[0 := (val & 7) * 2][1 := (val & 7) * 2 + 1])
    else if b.mapper == 4 then Mapper4(b, c, addr, val)
    else if b.mapper == 3 then c.(chr := c.chr[0 := (val & 3) * 2][1 := (val & 3) * 2 + 1])
    else if b.mapper == 2 then c.(prg := c.prg[0 := val & 31])
    else if b.mapper == 1 then Mapper1(b, c, addr, val)
    else c
  }

  // --------------------------------------------------------------------- mem

  function PrgByte(v: Video, addr: bv16): bv8 { v.board.prgByte(v.cart.prg, addr) }

  function Offset(addr: bv16): (i: nat)
    ensures i < 8192
  {
    (addr & 0x1fff) as nat
  }

  /** The $4xxx page of `mem` with `write` clear: sound unit, joypad, and nothing. */
  function ReadIo(m: Machine, lo: bv8): (r: Reply)
    requires m.Valid()
    ensures r.m.Valid() && r.m.pending == m.pending
  {
    var q := m.(clock := m.clock + 1);
    if lo == 21 then Reply(q, m.inputs.apu(m.clock))
    else if lo == 22 then Reply(q.(keys := m.keys >> 1), m.keys & 1)
    else Reply(q, 0)
  }

  function ReadRegister(m: Machine, port: bv8): (r: Reply)
    requires m.Valid() && m.pending == 0
    ensures r.m.Valid() && r.m.pending == 0
  {
    var (v, byte) := ReadPort(m.video, port);
    Reply(m.(video := v), byte)
  }

  /** `mem` with `write` clear. */
  function Read(m0: Machine, addr: bv16): (r: Reply)
    requires m0.Valid()
    ensures r.m.Valid() && (m0.pending == 0 ==> r.m.pending == 0)
  {
    var m := Settle(m0, addr, false);
    if addr < 0x2000 then Reply(m, m.ram[Offset(addr)])
    else if addr < 0x4000 then ReadRegister(m, (addr & 7) as bv8)
    else if addr < 0x5000 then ReadIo(m, (addr & 0xff) as bv8)
    else if 0x6000 <= addr < 0x8000 then Reply(m, m.prgram[Offset(addr)])
    else Reply(m, PrgByte(m.video, addr))
  }

  function StoreSprite(v: Video, i: nat, byte: bv8): (q: Video)
    requires v.Valid() && i < 256
    ensures q.Valid()
  {
    v.(oam := v.oam[i := byte])
  }

  /** One round of the sprite DMA. */
  function DmaStep(m: Machine, page: bv8, i: nat): (q: Machine)
    requires m.Valid() && i < 256
    ensures q.Valid() && (m.pending == 0 ==> q.pending == 0)
  {
    var r := Read(m, ((page as bv16) << 8) | (i as bv16));
    r.m.(video := StoreSprite(r.m.video, i, r.byte))
  }

  /** The sprite DMA: cells `n`-1 down to 0 are read from page `page` and stored. */
  function SpriteDma(m: Machine, page: bv8, n: nat): (q: Machine)
    requires m.Valid() && n <= 256
    ensures q.Valid() && (m.pending == 0 ==> q.pending == 0)
    decreases n
  {
    if n == 0 then m else SpriteDma(DmaStep(m, page, n - 1), page, n - 1)
  }

  /** The joypad is sampled on every write to the $4xxx page and latched by the one to $4x16. */
  function LatchPad(m: Machine, lo: bv8): (q: Machine)
    requires m.Valid()
    ensures q.Valid() && q.pending == m.pending
  {
    var q := m.(clock := m.clock + 1);
    if lo == 22 then q.(keys := m.inputs.pad(m.clock)) else q
  }

  /** The $4xxx page of `mem` with `write` set; the sprite DMA answers to every $4x14. */
  function WriteIo(m: Machine, lo: bv8, val: bv8): (q: Machine)
    requires m.Valid()
    ensures q.Valid() && (m.pending == 0 ==> q.pending == 0)
  {
    LatchPad(if lo == 20 then SpriteDma(m, val, |m.video.oam|) else m, lo)
  }

  function WriteMapper(m: Machine, addr: bv16, val: bv8): (q: Machine)
    requires m.Valid()
    ensures q.Valid() && q.pending == m.pending
  {
    m.(video := m.video.(cart := MapperWrite(m.video.board, m.video.cart, addr, val)))
  }

  function WriteRegister(m: Machine, port: bv8, val: bv8): (r: Reply)
    requires m.Valid() && m.pending == 0
    ensures r.m.Valid() && r.m.pending == 0
  {
    var (v, byte) := WritePort(m.video, port, val);
    Reply(m.(video := v), byte)
  }

  function WriteRam(m: Machine, addr: bv16, val: bv8): (q: Machine)
    requires m.Valid()
    ensures q.Valid() && q.pending == m.pending
  {
    if addr < 0x2000 then m.(ram := m.ram[Offset(addr) := val])
    else m.(prgram := m.prgram[Offset(addr) := val])
  }

  /** `mem` with `write` set. */
  function Write(m0: Machine, addr: bv16, val: bv8): (r: Reply)
    requires m0.Valid()
    ensures r.m.Valid() && (m0.pending == 0 ==> r.m.pending == 0)
  {
    var m := Settle(m0, addr, true);
    if addr < 0x2000 || 0x6000 <= addr < 0x8000 then Reply(WriteRam(m, addr, val), val)
    else if addr < 0x4000 then WriteRegister(m, (addr & 7) as bv8, val)
    else if addr < 0x5000 then Reply(WriteIo(m, (addr & 0xff) as bv8, val), 0)
    else
      var q := WriteMapper(m, addr, val);
      Reply(q, PrgByte(q.video, addr))
  }
}
