/** The picture unit of the emulator, one dot at a time.

  This module holds the values the emulator's registers take and the reference
  behaviour every fast path is measured against: `Pixel` draws one dot through the
  unaligned shift registers, `Tick` runs one dot of the main loop, and `Ticks` runs
  many.  Nothing here skips, batches or postpones anything.
 */
module PpuModel {

  // ---------------------------------------------------------------- cartridge

  /** Mapper registers (`prg`, `chr`, `mirror`, the MMC1 and the MMC3 registers). */
  datatype Cart = Cart(
    prg: seq<bv8>, chr: seq<bv8>, mirror: bv8,
    mmc1Bits: bv8, mmc1Data: bv8, mmc1Ctrl: bv8, chrBank0: bv8, chrBank1: bv8, prgBank: bv8,
    mmc3ChrPrg: seq<bv8>, mmc3Bits: bv8, mmc3Irq: bv8, mmc3Latch: bv8)
  {
    ghost predicate Valid() { |prg| == 4 && |chr| == 8 && |mmc3ChrPrg| == 8 }
  }

  type CartRegs = c: Cart | c.Valid()
    witness Cart([0, 0, 0, 0], [0, 0, 0, 0, 0, 0, 0, 0], 0, 0, 0, 0, 0, 0, 0, [0, 0, 0, 0, 0, 0, 0, 0], 0, 0, 0)

  /** What never changes while a program runs: the mapper number, the number of 16k PRG
    banks, whether the pattern tables are RAM, the PRG contents seen through the bank
    registers, and the two pixel-output switches. */
  datatype Board = Board(
    mapper: bv8, prgBanks: bv8, chrIsRam: bool,
    prgByte: (seq<bv8>, bv16) -> bv8,
    pixelOutput: bool, rgbaOutput: bool, rgb565: bv8 -> bv16)

  function ChrIndex(b: Board, banks: seq<bv8>, a: bv16): nat
    requires a < 0x2000 && |banks| == 8
  {
    if b.mapper == 4
    then (banks[(a >> 10) as nat] as nat) * 1024 + ((a & 1023) as nat)
    else (banks[(a >> 12) as nat] as nat) * 4096 + ((a & 4095) as nat)
  }

  function NametableCell(mirror: bv8, a: bv16): (c: bv16)
    ensures c < 2048
  {
    if mirror == 0 then a & 1023
    else if mirror == 1 then (a & 1023) + 1024
    else if mirror == 2 then a & 2047
    else ((a >> 1) & 1024) | (a & 1023)
  }

  function NametableIndex(mirror: bv8, a: bv16): (i: nat)
    ensures i < 2048
  {
    NametableCell(mirror, a) as nat
  }

  // ------------------------------------------------------------- video memory

  /** Everything the background fetch can read while a span is drawn. */
  datatype Bus = Bus(board: Board, banks: seq<bv8>, mirror: bv8, chrData: nat -> bv8, vram: seq<bv8>)
  {
    ghost predicate Valid() { |banks| == 8 && |vram| == 2048 }

    function Chr(a: bv16): bv8
      requires Valid() && a < 0x2000
    {
      chrData(ChrIndex(board, banks, a))
    }

    function Nametable(a: bv16): bv8
      requires Valid()
    {
      vram[NametableIndex(mirror, a)]
    }
  }

  /** The latches of the background fetch: the address and the bytes fetched so far. */
  datatype Latches = Latches(v: bv16, atb: bv16, ntb: bv8, ptbLo: bv8)

  /** The shift registers as the hardware has them: not aligned to `fine_x`. */
  datatype Shifters = Shifters(hi: bv16, lo: bv16, at: bv32)

  function AttributeAddress(v: bv16): bv16 {
    (v & 0xc00) | 0x3c0 | ((v >> 4) & 0x38) | ((v >> 2) & 7)
  }

  function AttributeShift(v: bv16): (s: bv8)
    ensures s <= 6
  {
    (((((v >> 5) & 2) | ((v >> 1) & 1)) * 2) & 7) as bv8
  }

  /** The two attribute bits of the tile, repeated over the whole byte pair. */
  function AttributeWord(byte: bv8, v: bv16): bv16 {
    (((byte >> AttributeShift(v)) & 3) as bv16) * 0x5555
  }

  function PatternAddress(base: bv16, ntb: bv8, v: bv16): (a: bv16)
    ensures base & 0x1000 == base ==> a < 0x2000 && a | 8 < 0x2000
  {
    base | ((ntb as bv16) << 4) | (v >> 12)
  }

  function NextTile(v: bv16): bv16 {
    if v & 31 == 31 then (v & 0xffe0) ^ 1024 else v + 1
  }

  /** The latch part of one fetch step. */
  function FetchLatches(bus: Bus, base: bv16, dot: nat, l: Latches): Latches
    requires bus.Valid() && base & 0x1000 == base
  {
    match dot % 8
    case 1 => l.(ntb := bus.Nametable(l.v))
    case 3 => l.(atb := AttributeWord(bus.Nametable(AttributeAddress(l.v)), l.v))
    case 5 => l.(ptbLo := bus.Chr(PatternAddress(base, l.ntb, l.v)))
    case 7 => l.(v := NextTile(l.v))
    case _ => l
  }

  function PatternHigh(bus: Bus, base: bv16, l: Latches): bv8
    requires bus.Valid() && base & 0x1000 == base
  {
    bus.Chr(PatternAddress(base, l.ntb, l.v) | 8)
  }

  /** The shift-register part of one fetch step: at the eighth dot of a tile its bytes are
    merged into the low end. */
  function FetchShifters(bus: Bus, base: bv16, dot: nat, l: Latches, s: Shifters): Shifters
    requires bus.Valid() && base & 0x1000 == base
  {
    if dot % 8 == 7
    then Shifters(MergePlane(s.hi, PatternHigh(bus, base, l)), MergePlane(s.lo, l.ptbLo), MergeAttribute(s.at, l.atb))
    else s
  }

  function ShiftPlane(s: bv16): bv16 { s << 1 }

  function ShiftAttribute(s: bv32): bv32 { s << 2 }

  function ShiftOnce(s: Shifters): Shifters {
    Shifters(ShiftPlane(s.hi), ShiftPlane(s.lo), ShiftAttribute(s.at))
  }

  function MergePlane(s: bv16, byte: bv8): bv16 { s | (byte as bv16) }

  function MergeAttribute(s: bv32, at: bv16): bv32 { s | (at as bv32) }

  // ------------------------------------------------------------------- a dot

  /** What a span is drawn from and does not change. */
  datatype Scene = Scene(
    bus: Bus, base: bv16, fineX: bv8, palette: seq<bv8>,
    sprites: seq<bv8>, spritesOn: bool, fbOffset: nat)
  {
    ghost predicate Valid() {
      && bus.Valid() && base & 0x1000 == base && fineX < 8
      && |palette| == 256 && |sprites| == 256 && fbOffset <= 239 * 256
    }
  }

  /** What drawing a dot changes. */
  datatype Raster = Raster(
    dot: nat, latches: Latches, shifters: Shifters, status: bv8,
    indices: seq<bv8>, colors: seq<bv16>)
  {
    ghost predicate Valid() { |indices| == 61440 && |colors| == 61440 }
  }

  /** Background colour: the two pattern planes tapped at bit 15 - fine_x. */
  function BackgroundColor(s: Shifters, fineX: bv8): bv8
    requires fineX < 8
  {
    ((((s.hi >> (15 - fineX)) & 1) << 1) | ((s.lo >> (15 - fineX)) & 1)) as bv8
  }

  /** Background palette: attribute bits 30 - 2 fine_x and 31 - 2 fine_x, as bits 2 and 3. */
  function BackgroundPalette(s: Shifters, fineX: bv8): bv8
    requires fineX < 8
  {
    ((s.at >> (28 - 2 * fineX)) & 12) as bv8
  }

  datatype Shade = Shade(color: bv8, palette: bv8, status: bv8)

  /** Merge one column of the sprite row over the background and note a sprite-0 hit. */
  function MergeSprite(sprite: bv8, color: bv8, palette: bv8, status: bv8): Shade {
    if sprite == 0 then Shade(color, palette, status)
    else
      var over := !(sprite & 16 != 0 && color != 0);
      var c := if over then sprite & 3 else color;
      Shade(c, if over then 16 | (sprite & 12) else palette,
            if sprite & 32 != 0 && c != 0 then status | 64 else status)
  }

  function PixelShade(sc: Scene, r: Raster): Shade
    requires sc.Valid() && r.dot < 256
  {
    MergeSprite(if sc.spritesOn then sc.sprites[r.dot] else 0,
                BackgroundColor(r.shifters, sc.fineX), BackgroundPalette(r.shifters, sc.fineX), r.status)
  }

  function PaletteEntry(palette: seq<bv8>, color: bv8, pal: bv8): bv8
    requires |palette| == 256
  {
    palette[(if color != 0 then pal | color else 0) as nat]
  }

  /** Tap, merge, write the pixel, shift: a dot without its fetch. */
  function Draw(sc: Scene, r: Raster): (q: Raster)
    requires sc.Valid() && r.Valid() && r.dot < 256
    ensures q.Valid() && q.dot == r.dot + 1 && q.latches == r.latches
  {
    var shade := PixelShade(sc, r);
    var entry := PaletteEntry(sc.palette, shade.color, shade.palette);
    var at := sc.fbOffset + r.dot;
    Raster(r.dot + 1, r.latches, ShiftOnce(r.shifters), shade.status,
           if sc.bus.board.pixelOutput then r.indices[at := entry] else r.indices,
           if sc.bus.board.pixelOutput && sc.bus.board.rgbaOutput
           then r.colors[at := sc.bus.board.rgb565(entry)] else r.colors)
  }

  /** The fetch of the dot numbered `dot`. */
  function FetchAt(sc: Scene, dot: nat, r: Raster): (q: Raster)
    requires sc.Valid()
    ensures q.dot == r.dot && q.status == r.status && q.indices == r.indices && q.colors == r.colors
  {
    r.(latches := FetchLatches(sc.bus, sc.base, dot, r.latches),
       shifters := FetchShifters(sc.bus, sc.base, dot, r.latches, r.shifters))
  }

  /** One visible dot. */
  function Pixel(sc: Scene, r: Raster): (q: Raster)
    requires sc.Valid() && r.Valid() && r.dot < 256
    ensures q.Valid() && q.dot == r.dot + 1
  {
    FetchAt(sc, r.dot, Draw(sc, r))
  }

  function Pixels(sc: Scene, r: Raster, n: nat): (q: Raster)
    requires sc.Valid() && r.Valid() && r.dot + n <= 256
    ensures q.Valid() && q.dot == r.dot + n
  {
    if n == 0 then r else Pixel(sc, Pixels(sc, r, n - 1))
  }

  // ------------------------------------------------------------------ sprites

  /** What the sprites of one scanline are evaluated from. */
  datatype Sprites = Sprites(bus: Bus, oam: seq<bv8>, ctrl: bv8, scany: nat)
  {
    ghost predicate Valid() { bus.Valid() && |oam| == 256 && scany < 262 }
  }

  function SpriteHeight(ctrl: bv8): bv16 { if ctrl & 32 != 0 then 16 else 8 }

  function RowNumber(scany: nat, y: bv8): bv16
    requires scany < 262
  {
    (scany as bv16) - (y as bv16) - 1
  }

  /** Row of sprite `i` that the current scanline cuts, modulo 2^16: at least the sprite
    height when the sprite does not reach the scanline. */
  function SpriteRow(e: Sprites, i: nat): bv16
    requires e.Valid() && i < 64
  {
    RowNumber(e.scany, e.oam[4 * i])
  }

  function SpriteAddress(ctrl: bv8, tile: bv8, attr: bv8, row: bv16): (a: bv16)
    ensures a < 0x1ff8 && a + 8 < 0x2000
  {
    var sy := row ^ (if attr & 128 != 0 then SpriteHeight(ctrl) - 1 else 0);
    var t := tile as bv16;
    (if ctrl & 32 != 0 then ((t & 1) << 12) | ((t << 4) & 0x0fe0) | ((sy * 2) & 16)
     else (((ctrl as bv16) & 8) << 9) | (t << 4)) | (sy & 7)
  }

  /** Colour 0..3 that the two pattern bytes give column `dx`, mirrored when attribute
    bit 6 is set. */
  function SpriteColor(lo: bv8, hi: bv8, attr: bv8, dx: nat): (c: bv8)
    requires dx < 8
    ensures c < 4
  {
    var offset: bv8 := if attr & 64 != 0 then dx as bv8 else 7 - (dx as bv8);
    (((hi >> offset) & 1) << 1) | ((lo >> offset) & 1)
  }

  /** Colour, palette, priority and the sprite-0 mark in one byte. */
  function CellOf(color: bv8, attr: bv8, i: nat): (cell: bv8)
    requires color < 4
    ensures cell == 0 <==> color == 0
    ensures cell == 0 || (cell & 3 != 0 && (cell & 32 != 0 <==> i == 0))
  {
    if color == 0 then 0
    else color | ((attr & 3) << 2) | (if attr & 32 != 0 then 16 else 0) | (if i == 0 then 32 else 0)
  }

  /** What sprite `i` alone puts at screen column `x`: colour, palette, priority and the
    sprite-0 mark, or 0 where it is transparent or absent. */
  function SpriteCell(e: Sprites, i: nat, x: nat): (cell: bv8)
    requires e.Valid() && i < 64 && x < 256
    ensures cell == 0 || (cell & 3 != 0 && (cell & 32 != 0 <==> i == 0))
  {
    var left := e.oam[4 * i + 3] as nat;
    var row := SpriteRow(e, i);
    if row >= SpriteHeight(e.ctrl) || !(left <= x < left + 8) then 0
    else
      var attr := e.oam[4 * i + 2];
      var a := SpriteAddress(e.ctrl, e.oam[4 * i + 1], attr, row);
      var c := SpriteColor(e.bus.Chr(a), e.bus.Chr(a + 8), attr, x - left);
      CellOf(c, attr, i)
  }

  /** The first of the sprites `i`..`n`-1, in OAM order, that is opaque at column `x`. */
  function FirstSprite(e: Sprites, i: nat, n: nat, x: nat): (cell: bv8)
    requires e.Valid() && i <= n <= 64 && x < 256
    ensures cell == 0 || cell & 3 != 0
    ensures i > 0 ==> cell & 32 == 0
    decreases n - i
  {
    if i == n then 0
    else if SpriteCell(e, i, x) != 0 then SpriteCell(e, i, x)
    else FirstSprite(e, i + 1, n, x)
  }

  function SpriteLine(e: Sprites): (s: seq<bv8>)
    requires e.Valid()
    ensures |s| == 256
  {
    seq(256, x requires 0 <= x < 256 => FirstSprite(e, 0, 64, x))
  }

  // ------------------------------------------------------------ the registers

  /** The programmer's registers: temporary address, fine scroll, write toggle, control,
    mask and the $2007 read buffer. */
  datatype Ports = Ports(t: bv16, fineX: bv8, w: bool, ctrl: bv8, mask: bv8, buf: bv8)

  /** The scanline being drawn: its number, its frame-buffer row and its sprite pixels. */
  datatype Line = Line(scany: nat, fbOffset: nat, sprites: seq<bv8>, hasSprites: bool)
  {
    ghost predicate Valid() {
      && scany < 262 && fbOffset <= 239 * 256 && |sprites| == 256
      && (!hasSprites ==> forall x :: 0 <= x < 256 ==> sprites[x] == 0)
    }
  }

  /** Everything the dot loop reads or writes. */
  datatype Video = Video(
    board: Board, cart: CartRegs, chrData: nat -> bv8, vram: seq<bv8>, palette: seq<bv8>, oam: seq<bv8>,
    ports: Ports, raster: Raster, line: Line, nmiIrq: bv8, frames: seq<seq<bv16>>)
  {
    ghost predicate Valid() {
      && |vram| == 2048 && |palette| == 256 && |oam| == 256
      && ports.fineX < 8 && raster.Valid() && raster.dot < 341 && line.Valid()
    }

    predicate Rendering() { ports.mask & 24 != 0 }

    function AsBus(): Bus { Bus(board, cart.chr, cart.mirror, chrData, vram) }

    function AsSprites(): (e: Sprites)
      requires Valid()
      ensures e.Valid()
    {
      Sprites(AsBus(), oam, ports.ctrl, line.scany)
    }

    function AsScene(): (sc: Scene)
      requires Valid()
      ensures sc.Valid()
    {
      Scene(AsBus(), ((ports.ctrl as bv16) << 8) & 0x1000, ports.fineX, palette,
            line.sprites, ports.mask & 16 != 0, line.fbOffset)
    }

    function WithLatches(l: Latches): Video { this.(raster := raster.(latches := l)) }
    function WithDot(d: nat): Video { this.(raster := raster.(dot := d)) }
  }

  /** Start of a visible scanline: place the frame-buffer row and evaluate its sprites. */
  function StartLine(m: Video): (q: Video)
    requires m.Valid() && m.line.scany < 240
    ensures q.Valid() && q == m.(line := q.line) && q.line.scany == m.line.scany
  {
    var s := SpriteLine(m.AsSprites());
    m.(line := Line(m.line.scany, m.line.scany * 256, s, exists x :: 0 <= x < 256 && s[x] != 0))
  }

  // ----------------------------------------------------------- the dot loop

  function CoarseYIncrement(v: bv16): bv16 {
    if v & 0x7000 != 0x7000 then v + 4096
    else if v & 0x3e0 == 928 then (v & 0x8c1f) ^ 2048
    else if v & 0x3e0 == 0x3e0 then v & 0x8c1f
    else (v & 0x8c1f) | ((v + 32) & 0x3e0)
  }

  function EndOfLineAddress(v: bv16, t: bv16): bv16 {
    (CoarseYIncrement(v) & 0xfbe0) | (t & 0x41f)
  }

  /** One background prefetch dot at the end of a visible scanline. */
  function Prefetch(m: Video): (q: Video)
    requires m.Valid()
    ensures q.Valid() && q.raster.dot == m.raster.dot && q.line == m.line
  {
    var r := m.raster;
    var s := if r.dot < 336 then r.(shifters := ShiftOnce(r.shifters)) else r;
    m.(raster := FetchAt(m.AsScene(), r.dot, s))
  }

  /** The visible-scanline part of a dot. */
  function VisibleDot(m: Video): (q: Video)
    requires m.Valid() && m.line.scany < 240
    ensures q.Valid() && q.raster.dot == m.raster.dot && q.line.scany == m.line.scany
  {
    if m.raster.dot < 256 then
      var l := if m.raster.dot == 0 then StartLine(m) else m;
      l.(raster := Pixel(l.AsScene(), l.raster)).WithDot(m.raster.dot)
    else if m.raster.dot == 256 then
      m.WithLatches(m.raster.latches.(v := EndOfLineAddress(m.raster.latches.v, m.ports.t)))
    else if m.raster.dot < 320 then m
    else Prefetch(m)
  }

  /** The latch counts down and wraps below zero. */
  function CountDown(c: CartRegs): CartRegs { c.(mmc3Latch := c.mmc3Latch - 1) }

  /** The MMC3 counter is looked at only here. */
  function Mmc3Clock(m: Video): (q: Video)
    requires m.Valid()
    ensures q.Valid() && q.raster == m.raster && q.line == m.line
  {
    if (m.line.scany + 1) % 262 < 241 && m.raster.dot == 261 && m.cart.mmc3Irq != 0 then
      m.(cart := CountDown(m.cart),
         nmiIrq := if m.cart.mmc3Latch == 0 then 1 else m.nmiIrq)
    else m
  }

  /** The row and the vertical nametable bit from T, the rest of V as it is. */
  function Reloaded(v: bv16, t: bv16): bv16 { (v & 0x841f) | (t & 0x7be0) }

  function VerticalReload(m: Video): (q: Video)
    requires m.Valid()
    ensures q.Valid() && q.raster.dot == m.raster.dot && q.line == m.line
  {
    if m.line.scany == 261 && 280 <= m.raster.dot < 305
    then m.WithLatches(m.raster.latches.(v := Reloaded(m.raster.latches.v, m.ports.t)))
    else m
  }

  /** Vertical blank: raise NMI, set the flag and hand the middle 224 rows to the screen. */
  function FrameEvents(m: Video): (q: Video)
    requires m.Valid()
    ensures q.Valid() && q.raster.dot == m.raster.dot && q.line == m.line
  {
    if m.raster.dot != 1 then m
    else if m.line.scany == 241 then
      m.(nmiIrq := if m.ports.ctrl & 128 != 0 then 4 else m.nmiIrq,
         raster := m.raster.(status := m.raster.status | 128),
         frames := m.frames + [m.raster.colors[2048..2048 + 57344]])
    else if m.line.scany == 261 then m.(raster := m.raster.(status := 0))
    else m
  }

  function Advance(m: Video): (q: Video)
    requires m.Valid()
    ensures q.Valid()
  {
    if m.raster.dot + 1 == 341
    then m.WithDot(0).(line := m.line.(scany := (m.line.scany + 1) % 262))
    else m.WithDot(m.raster.dot + 1)
  }

  /** One dot of the main loop. */
  function Tick(m: Video): (q: Video)
    requires m.Valid()
    ensures q.Valid()
  {
    var a := if m.Rendering() && m.line.scany < 240 then VisibleDot(m) else m;
    var b := if m.Rendering() then VerticalReload(Mmc3Clock(a)) else a;
    Advance(FrameEvents(b))
  }

  function Ticks(m: Video, n: nat): (q: Video)
    requires m.Valid()
    ensures q.Valid()
  {
    if n == 0 then m else Tick(Ticks(m, n - 1))
  }
}
