/** What a program sees of the mappers: reads after writes, in numbers.

  Nothing here says how the registers are kept; each law is about the byte read, the pattern
  byte fetched or the nametable reached after some writes.
 */
module MapperLaws {
  import opened PpuModel
  import opened CpuBus
  import opened PostponedDots

  // ------------------------------------------------------------ what is seen

  /** The processor reads through the program banks `prg`. */
  ghost predicate ReadsBanks(q: Machine, prg: seq<bv8>)
    requires q.Valid()
  {
    forall a: bv16 | a >= 0x8000 :: Read(q, a).byte == q.video.board.prgByte(prg, a)
  }

  // Addresses by table and offset.

  function PageAddress(second: bool, i: bv16): bv16 { if second then 0x1000 + i else i }

  function KilobyteAddress(k: bv16, i: bv16): bv16 { k * 1024 + i }

  function TableAddress(k: bv16, i: bv16): bv16 { 0x2000 + k * 1024 + i }

  /** Byte `i` of a pattern table comes from this 4k bank. */
  ghost predicate FetchesByte(v: Video, second: bool, i: bv16, bank: bv8)
    requires v.Valid()
  {
    && PageAddress(second, i) < 0x2000
    && v.AsBus().Chr(PageAddress(second, i)) == v.chrData((bank as nat) * 4096 + i as nat)
  }

  /** The two pattern tables are fetched from these two 4k banks. */
  ghost predicate FetchesPages(v: Video, low: bv8, high: bv8)
    requires v.Valid()
  {
    forall i: bv16 | i < 4096 :: FetchesByte(v, false, i, low) && FetchesByte(v, true, i, high)
  }

  /** They are fetched from these eight 1k banks. */
  ghost predicate FetchesKilobytes(v: Video, banks: seq<bv8>)
    requires v.Valid() && |banks| == 8
  {
    forall k: bv16, i: bv16 | k < 8 && i < 1024 :: KilobyteAddress(k, i) < 0x2000 &&
      v.AsBus().Chr(KilobyteAddress(k, i)) == v.chrData((banks[k as nat] as nat) * 1024 + i as nat)
  }

  /** Byte `i` of a page of video memory. */
  function Cell(page: nat, i: bv16): (x: nat)
    requires page < 2 && i < 1024
    ensures x < 2048
  {
    page * 1024 + i as nat
  }

  /** The four nametables are kept in these pages of video memory. */
  ghost predicate Nametables(v: Video, p0: nat, p1: nat, p2: nat, p3: nat)
    requires v.Valid() && p0 < 2 && p1 < 2 && p2 < 2 && p3 < 2
  {
    forall k: bv16, i: bv16 | k < 4 && i < 1024 ::
      v.AsBus().Nametable(TableAddress(k, i))
      == v.vram[Cell(if k == 0 then p0 else if k == 1 then p1 else if k == 2 then p2 else p3, i)]
  }

  // ---------------------------------------------------- from seen to registers

  /** A store to $8000 and above changes the registers and settles the dots, no more. */
  lemma MapperStore(m: Machine, addr: bv16, val: bv8)
    requires m.Valid() && addr >= 0x8000
    ensures var q := Write(m, addr, val).m;
            && q.Valid() && q.pending == 0 && q.video.board == m.video.board
            && q.video.chrData == m.video.chrData && q.video.vram == m.video.vram && |q.video.vram| == 2048
            && q.video.cart == MapperWrite(m.video.board, m.video.cart, addr, val)
  {
    hide Flush, MapperWrite;
    FlushKeepsOutside(m);
  }

  lemma SeesBanks(q: Machine)
    requires q.Valid() && q.pending == 0
    ensures ReadsBanks(q, q.video.cart.prg)
  {
    hide Flush;
  }

  // ------------------------------------------------------- addresses in parts

  lemma PageParts(second: bool, i: bv16)
    requires i < 4096
    ensures var a := PageAddress(second, i); a >> 12 == (if second then 1 else 0) && a & 4095 == i && a < 0x2000
  {
  }

  lemma KilobyteParts(k: bv16, i: bv16)
    requires k < 8 && i < 1024
    ensures var a := KilobyteAddress(k, i); a < 0x2000 && a >> 10 == k && a & 1023 == i
  {
  }

  lemma TableParts(k: bv16, i: bv16)
    requires k < 4 && i < 1024
    ensures var a := TableAddress(k, i);
            && a & 1023 == i && a & 2047 == (if k == 0 || k == 2 then i else i + 1024)
            && ((a >> 1) & 1024) | (a & 1023) == (if k < 2 then i else i + 1024)
  {
  }

  lemma Above(i: bv16)
    requires i < 1024
    ensures (i + 1024) as nat == i as nat + 1024
  {
  }

  lemma PageIndex(b: Board, banks: seq<bv8>, a: bv16, i: bv16)
    requires b.mapper != 4 && |banks| == 8 && a < 0x2000 && a & 4095 == i
    ensures a >> 12 == 0 ==> ChrIndex(b, banks, a) == (banks[0] as nat) * 4096 + i as nat
    ensures a >> 12 == 1 ==> ChrIndex(b, banks, a) == (banks[1] as nat) * 4096 + i as nat
  {
  }

  lemma SeesByte(v: Video, second: bool, i: bv16, bank: bv8)
    requires v.Valid() && v.board.mapper != 4 && i < 4096 && bank == v.cart.chr[if second then 1 else 0]
    ensures FetchesByte(v, second, i, bank)
  {
    hide PageAddress, ChrIndex;
    PageParts(second, i);
    PageIndex(v.board, v.cart.chr, PageAddress(second, i), i);
  }

  lemma SeesPages(v: Video)
    requires v.Valid() && v.board.mapper != 4
    ensures FetchesPages(v, v.cart.chr[0], v.cart.chr[1])
  {
    hide FetchesByte;
    forall i: bv16 | i < 4096
      ensures FetchesByte(v, false, i, v.cart.chr[0]) && FetchesByte(v, true, i, v.cart.chr[1])
    {
      SeesByte(v, false, i, v.cart.chr[0]);
      SeesByte(v, true, i, v.cart.chr[1]);
    }
  }

  lemma SeesKilobytes(v: Video)
    requires v.Valid() && v.board.mapper == 4
    ensures FetchesKilobytes(v, v.cart.chr)
  {
    hide KilobyteAddress;
    forall k: bv16, i: bv16 | k < 8 && i < 1024
      ensures KilobyteAddress(k, i) < 0x2000
      ensures v.AsBus().Chr(KilobyteAddress(k, i)) == v.chrData((v.cart.chr[k as nat] as nat) * 1024 + i as nat)
    {
      KilobyteParts(k, i);
    }
  }

  lemma IndexOnePage(a: bv16, i: bv16)
    requires i < 1024 && a & 1023 == i
    ensures NametableIndex(0, a) == i as nat && NametableIndex(1, a) == 1024 + i as nat
  {
    Above(i);
  }

  lemma IndexBeside(a: bv16, i: bv16, second: bool)
    requires i < 1024 && a & 2047 == if second then i + 1024 else i
    ensures NametableIndex(2, a) == (if second then 1024 else 0) + i as nat
  {
    Above(i);
  }

  lemma IndexBelow(a: bv16, i: bv16, second: bool)
    requires i < 1024 && ((a >> 1) & 1024) | (a & 1023) == if second then i + 1024 else i
    ensures NametableIndex(3, a) == (if second then 1024 else 0) + i as nat
  {
    Above(i);
  }

  lemma TableIndex(k: bv16, i: bv16)
    requires k < 4 && i < 1024
    ensures var a := TableAddress(k, i);
            && NametableIndex(0, a) == i as nat && NametableIndex(1, a) == 1024 + i as nat
            && NametableIndex(2, a) == (if k == 0 || k == 2 then 0 else 1024) + i as nat
            && NametableIndex(3, a) == (if k < 2 then 0 else 1024) + i as nat
  {
    hide TableAddress, NametableIndex;
    var a := TableAddress(k, i);
    TableParts(k, i);
    IndexOnePage(a, i);
    IndexBeside(a, i, !(k == 0 || k == 2));
    IndexBelow(a, i, !(k < 2));
  }

  /** Mirroring 0 and 1 keep one page, 2 puts the pages side by side, 3 above one another. */
  lemma SeesNametables(v: Video)
    requires v.Valid()
    ensures v.cart.mirror == 0 ==> Nametables(v, 0, 0, 0, 0)
    ensures v.cart.mirror == 1 ==> Nametables(v, 1, 1, 1, 1)
    ensures v.cart.mirror == 2 ==> Nametables(v, 0, 1, 0, 1)
    ensures v.cart.mirror == 3 ==> Nametables(v, 0, 0, 1, 1)
  {
    hide NametableIndex, TableAddress;
    forall k: bv16, i: bv16 | k < 4 && i < 1024
      ensures var a := TableAddress(k, i);
              && NametableIndex(0, a) == i as nat && NametableIndex(1, a) == 1024 + i as nat
              && NametableIndex(2, a) == (if k == 0 || k == 2 then 0 else 1024) + i as nat
              && NametableIndex(3, a) == (if k < 2 then 0 else 1024) + i as nat
    {
      TableIndex(k, i);
    }
  }

  // ------------------------------------------------------------------ mapper 2

  /** Mapper 2: a store selects the first program bank, the others stay. */
  lemma Mapper2Law(m: Machine, addr: bv16, val: bv8)
    requires m.Valid() && m.video.board.mapper == 2 && addr >= 0x8000
    ensures var q := Write(m, addr, val).m;
            q.Valid() && ReadsBanks(q, m.video.cart.prg[0 := val % 32]) && q.video.cart.chr == m.video.cart.chr
            && q.video.cart.mirror == m.video.cart.mirror
  {
    hide Write, ReadsBanks;
    MapperStore(m, addr, val);
    SeesBanks(Write(m, addr, val).m);
  }

  // ------------------------------------------------------------------ mapper 7

  /** Mapper 7: the low three bits select a pair of program banks, the rest one page for all
    four nametables. */
  lemma Mapper7Law(m: Machine, addr: bv16, val: bv8)
    requires m.Valid() && m.video.board.mapper == 7 && addr >= 0x8000
    ensures var q := Write(m, addr, val).m;
            && q.Valid() && ReadsBanks(q, m.video.cart.prg[0 := val % 8 * 2][1 := val % 8 * 2 + 1])
            && (val < 16 ==> Nametables(q.video, 1, 1, 1, 1)) && (val >= 16 ==> Nametables(q.video, 0, 0, 0, 0))
            && q.video.cart.chr == m.video.cart.chr
  {
    hide Write, ReadsBanks, Nametables;
    MapperStore(m, addr, val);
    SeesBanks(Write(m, addr, val).m);
    SeesNametables(Write(m, addr, val).m.video);
  }

  // ------------------------------------------------------------------ mapper 3

  /** Mapper 3: the low two bits select a pair of pattern banks. */
  lemma Mapper3Law(m: Machine, addr: bv16, val: bv8)
    requires m.Valid() && m.video.board.mapper == 3 && addr >= 0x8000
    ensures var q := Write(m, addr, val).m;
            && q.Valid() && FetchesPages(q.video, val % 4 * 2, val % 4 * 2 + 1)
            && ReadsBanks(q, m.video.cart.prg) && q.video.cart.mirror == m.video.cart.mirror
  {
    hide Write, ReadsBanks, FetchesPages;
    MapperStore(m, addr, val);
    SeesBanks(Write(m, addr, val).m);
    SeesPages(Write(m, addr, val).m.video);
  }

  // ------------------------------------------------------------------ mapper 4

  /** The program banks of mapper 4: two that can be chosen and the last two, of which the first
    and the third slot change places with bit 6. */
  function Mapper4Program(b: Board, cmd: bv8, s: seq<bv8>): seq<bv8>
    requires |s| == 8
  {
    var last := b.prgBanks * 2 - 1;
    if cmd & 0x40 == 0 then [s[6], s[7], last - 1, last] else [last - 1, s[7], s[6], last]
  }

  /** Its pattern banks: two pairs and four single ones, in the order bit 7 asks for. */
  function Mapper4Patterns(cmd: bv8, s: seq<bv8>): (banks: seq<bv8>)
    requires |s| == 8
    ensures |banks| == 8
  {
    var pairs := [s[0] & 0xfe, s[0] | 1, s[1] & 0xfe, s[1] | 1];
    var singles := [s[2], s[3], s[4], s[5]];
    if cmd & 0x80 == 0 then pairs + singles else singles + pairs
  }

  lemma Regions(addr: bv16)
    ensures 0x8000 <= addr < 0xa000 <==> Region(addr) == 4
    ensures 0xa000 <= addr < 0xc000 <==> Region(addr) == 5
    ensures 0xc000 <= addr < 0xe000 <==> Region(addr) == 6
    ensures 0xe000 <= addr <==> Region(addr) == 7
  {
  }

  lemma CommandBits(cmd: bv8)
    ensures (cmd >> 5) & 4 == 0 <==> cmd & 0x80 == 0
    ensures (cmd >> 5) & 2 == 0 <==> cmd & 0x40 == 0
  {
  }

  /** A command or data is kept, and the banks follow. */
  lemma RegisterStore(b: Board, c: CartRegs, addr: bv16, val: bv8)
    requires b.mapper == 4 && Region(addr) == 4
    ensures addr & 1 == 0 ==> MapperWrite(b, c, addr, val) == Mapper4Banks(b, c.(mmc3Bits := val))
    ensures addr & 1 == 1 ==>
              MapperWrite(b, c, addr, val)
              == Mapper4Banks(b, c.(mmc3ChrPrg := c.mmc3ChrPrg[Selected(c.mmc3Bits) := val]))
  {
    hide Mapper4Banks, Selected, Region;
  }

  lemma BanksFollow(b: Board, c: CartRegs)
    ensures var q := Mapper4Banks(b, c);
            && q == c.(prg := q.prg, chr := q.chr)
            && q.prg == Mapper4Program(b, c.mmc3Bits, c.mmc3ChrPrg)
            && q.chr == Mapper4Patterns(c.mmc3Bits, c.mmc3ChrPrg)
  {
    CommandBits(c.mmc3Bits);
  }

  /** The registers after a command and its data. */
  lemma Mapper4Registers(b: Board, c: CartRegs, even: bv16, odd: bv16, cmd: bv8, data: bv8)
    requires b.mapper == 4 && 0x8000 <= even < 0xa000 && even & 1 == 0 && 0x8000 <= odd < 0xa000 && odd & 1 == 1
    ensures var q, s := MapperWrite(b, MapperWrite(b, c, even, cmd), odd, data), c.mmc3ChrPrg[Selected(cmd) := data];
            && q.mmc3ChrPrg == s && q.mmc3Bits == cmd && q.prg == Mapper4Program(b, cmd, s)
            && q.chr == Mapper4Patterns(cmd, s) && q.mirror == c.mirror && q.mmc3Latch == c.mmc3Latch
  {
    hide MapperWrite;
    CommandStore(b, c, even, cmd);
    DataStore(b, MapperWrite(b, c, even, cmd), odd, data);
  }

  lemma CommandStore(b: Board, c: CartRegs, even: bv16, cmd: bv8)
    requires b.mapper == 4 && 0x8000 <= even < 0xa000 && even & 1 == 0
    ensures var q := MapperWrite(b, c, even, cmd);
            q.mmc3ChrPrg == c.mmc3ChrPrg && q.mmc3Bits == cmd && q.mirror == c.mirror && q.mmc3Latch == c.mmc3Latch
  {
    hide MapperWrite, Mapper4Banks, Mapper4Program, Mapper4Patterns, Selected, Region;
    Regions(even);
    RegisterStore(b, c, even, cmd);
    BanksFollow(b, c.(mmc3Bits := cmd));
  }

  lemma DataStore(b: Board, c: CartRegs, odd: bv16, data: bv8)
    requires b.mapper == 4 && 0x8000 <= odd < 0xa000 && odd & 1 == 1
    ensures var q, s := MapperWrite(b, c, odd, data), c.mmc3ChrPrg[Selected(c.mmc3Bits) := data];
            && q.mmc3ChrPrg == s && q.mmc3Bits == c.mmc3Bits && q.prg == Mapper4Program(b, c.mmc3Bits, s)
            && q.chr == Mapper4Patterns(c.mmc3Bits, s) && q.mirror == c.mirror && q.mmc3Latch == c.mmc3Latch
  {
    hide MapperWrite, Mapper4Banks, Mapper4Program, Mapper4Patterns, Selected, Region;
    Regions(odd);
    RegisterStore(b, c, odd, data);
    BanksFollow(b, c.(mmc3ChrPrg := c.mmc3ChrPrg[Selected(c.mmc3Bits) := data]));
  }

  /** Mapper 4: a command to an even address and data to an odd one load one of the eight
    registers, and every bank follows from these. */
  lemma Mapper4Law(m: Machine, even: bv16, odd: bv16, cmd: bv8, data: bv8)
    requires m.Valid() && m.video.board.mapper == 4
    requires 0x8000 <= even < 0xa000 && even & 1 == 0 && 0x8000 <= odd < 0xa000 && odd & 1 == 1
    ensures var s := m.video.cart.mmc3ChrPrg[Selected(cmd) := data];
            var q := Write(Write(m, even, cmd).m, odd, data).m;
            && q.Valid() && q.video.cart.mmc3ChrPrg == s
            && ReadsBanks(q, Mapper4Program(m.video.board, cmd, s))
            && FetchesKilobytes(q.video, Mapper4Patterns(cmd, s)) && q.video.cart.mirror == m.video.cart.mirror
  {
    hide Write, ReadsBanks, FetchesKilobytes, MapperWrite, Mapper4Program, Mapper4Patterns, Selected;
    var p := Write(m, even, cmd).m;
    MapperStore(m, even, cmd);
    MapperStore(p, odd, data);
    Mapper4Registers(m.video.board, m.video.cart, even, odd, cmd, data);
    var q := Write(p, odd, data).m;
    SeesBanks(q);
    SeesKilobytes(q.video);
  }

  /** Its other stores: mirroring, the line counter, and the interrupt switch. */
  lemma Mapper4Others(m: Machine, addr: bv16, val: bv8)
    requires m.Valid() && m.video.board.mapper == 4 && addr >= 0xa000
    ensures var c, q := m.video.cart, Write(m, addr, val).m;
            && q.Valid() && q.video.cart.prg == c.prg && q.video.cart.chr == c.chr
            && (addr < 0xc000 && addr & 1 == 0 && val & 1 == 0 ==> Nametables(q.video, 0, 1, 0, 1))
            && (addr < 0xc000 && addr & 1 == 0 && val & 1 == 1 ==> Nametables(q.video, 0, 0, 1, 1))
            && (0xc000 <= addr < 0xe000 && addr & 1 == 0 ==> q.video.cart.mmc3Latch == val)
            && (0xe000 <= addr ==> (q.video.cart.mmc3Irq != 0 <==> addr & 1 == 1))
            && (addr < 0xe000 ==> q.video.cart.mmc3Irq == c.mmc3Irq)
  {
    hide Write, Nametables, Region;
    Regions(addr);
    MapperStore(m, addr, val);
    SeesNametables(Write(m, addr, val).m.video);
  }

  // ------------------------------------------------------------------ mapper 1

  /** Five stores, one bit each, low bit first. */
  function Send(m: Machine, addr: bv16, d: bv8): (q: Machine)
    requires m.Valid() && addr >= 0x8000
    ensures q.Valid()
  {
    var m1 := Write(m, addr, d & 1).m;
    var m2 := Write(m1, addr, (d >> 1) & 1).m;
    var m3 := Write(m2, addr, (d >> 2) & 1).m;
    var m4 := Write(m3, addr, (d >> 3) & 1).m;
    Write(m4, addr, (d >> 4) & 1).m
  }

  /** One bit that is not the last. */
  lemma OneBit(b: Board, c: CartRegs, addr: bv16, bit: bv8)
    requires b.mapper == 1 && bit < 2 && c.mmc1Bits > 1
    ensures MapperWrite(b, c, addr, bit)
         == c.(mmc1Data := (c.mmc1Data >> 1) | ((bit << 4) & 16), mmc1Bits := c.mmc1Bits - 1)
  {
    BitIsLow(bit);
  }

  lemma BitIsLow(bit: bv8)
    requires bit < 2
    ensures bit & 0x80 == 0
  {
  }

  function Shift(data: bv8, bit: bv8): bv8 { (data >> 1) | ((bit << 4) & 16) }

  lemma FiveBits(d: bv8)
    requires d < 32
    ensures Shift(Shift(Shift(Shift(Shift(0, d & 1), (d >> 1) & 1), (d >> 2) & 1), (d >> 3) & 1), (d >> 4) & 1) == d
  {
  }

  /** The registers after the five bits. */
  lemma FiveStores(b: Board, c: CartRegs, addr: bv16, d: bv8)
    requires b.mapper == 1 && d < 32 && c.mmc1Bits == 5 && c.mmc1Data == 0
    ensures var c1 := MapperWrite(b, c, addr, d & 1);
            var c2 := MapperWrite(b, c1, addr, (d >> 1) & 1);
            var c3 := MapperWrite(b, c2, addr, (d >> 2) & 1);
            var c4 := MapperWrite(b, c3, addr, (d >> 3) & 1);
            MapperWrite(b, c4, addr, (d >> 4) & 1)
            == Mapper1Banks(b, Mapper1Load(c.(mmc1Data := d, mmc1Bits := 0), addr))
  {
    hide MapperWrite, Mapper1Banks, Mapper1Load;
    BitsAreSmall(d);
    FiveBits(d);
    var c1 := MapperWrite(b, c, addr, d & 1);
    OneBit(b, c, addr, d & 1);
    var c2 := MapperWrite(b, c1, addr, (d >> 1) & 1);
    OneBit(b, c1, addr, (d >> 1) & 1);
    var c3 := MapperWrite(b, c2, addr, (d >> 2) & 1);
    OneBit(b, c2, addr, (d >> 2) & 1);
    var c4 := MapperWrite(b, c3, addr, (d >> 3) & 1);
    OneBit(b, c3, addr, (d >> 3) & 1);
    LastBit(b, c4, addr, (d >> 4) & 1, d);
  }

  lemma BitsAreSmall(d: bv8)
    ensures d & 1 < 2 && (d >> 1) & 1 < 2 && (d >> 2) & 1 < 2 && (d >> 3) & 1 < 2 && (d >> 4) & 1 < 2
  {
  }

  lemma LastBit(b: Board, c: CartRegs, addr: bv16, bit: bv8, d: bv8)
    requires b.mapper == 1 && bit < 2 && c.mmc1Bits == 1 && Shift(c.mmc1Data, bit) == d
    ensures MapperWrite(b, c, addr, bit) == Mapper1Banks(b, Mapper1Load(c.(mmc1Data := d, mmc1Bits := 0), addr))
  {
    hide Mapper1Banks, Mapper1Load;
    BitIsLow(bit);
  }

  /** The four registers of mapper 1. */
  datatype Serial = Serial(ctrl: bv8, low: bv8, high: bv8, bank: bv8)

  function SerialOf(c: CartRegs): Serial { Serial(c.mmc1Ctrl, c.chrBank0, c.chrBank1, c.prgBank) }

  /** The address names the register that is loaded. */
  function Loaded(r: Serial, addr: bv16, d: bv8): Serial {
    if addr < 0xa000 then r.(ctrl := d)
    else if addr < 0xc000 then r.(low := d)
    else if addr < 0xe000 then r.(high := d)
    else r.(bank := d)
  }

  /** The first two program banks: a pair, or one fixed at either end. */
  function Mapper1Program(b: Board, r: Serial): (bv8, bv8) {
    var mode := (r.ctrl >> 2) & 3;
    if mode == 2 then (0, r.bank) else if mode == 3 then (r.bank, b.prgBanks - 1) else (r.bank & 0xfe, r.bank | 1)
  }

  function Paired(prg: seq<bv8>, pair: (bv8, bv8)): seq<bv8>
    requires |prg| == 4
  {
    prg[0 := pair.0][1 := pair.1]
  }

  /** The pattern banks: a pair, or two chosen apart. */
  function Mapper1Patterns(r: Serial): (bv8, bv8) {
    if r.ctrl & 16 == 0 then (r.low & 0xfe, r.low | 1) else (r.low, r.high)
  }

  /** Mapper 1: a store with bit 7 set begins a transfer, and five more load the register that
    their address names, low bit first; the banks follow from the four registers. */
  lemma Mapper1Law(m: Machine, start: bv16, reset: bv8, addr: bv16, d: bv8)
    requires m.Valid() && m.video.board.mapper == 1 && start >= 0x8000 && reset & 0x80 != 0 && addr >= 0x8000 && d < 32
    ensures var c, q := m.video.cart, Send(Write(m, start, reset).m, addr, d);
            var r := Loaded(SerialOf(c.(mmc1Ctrl := c.mmc1Ctrl | 12)), addr, d);
            && SerialOf(q.video.cart) == r
            && ReadsBanks(q, Paired(c.prg, Mapper1Program(m.video.board, r)))
            && FetchesPages(q.video, Mapper1Patterns(r).0, Mapper1Patterns(r).1)
            && q.video.cart.mirror == if addr < 0xa000 then d & 3 else c.mirror
  {
    hide Write, ReadsBanks, FetchesPages, MapperWrite, Mapper1Banks, Mapper1Load, Mapper1Program, Mapper1Patterns,
      Loaded;
    var b, r := m.video.board, Write(m, start, reset).m;
    MapperStore(m, start, reset);
    ResetStore(b, m.video.cart, start, reset);
    SentCart(r, addr, d);
    LoadedBanks(b, r.video.cart, addr, d);
    SeesBanks(Send(r, addr, d));
    SeesPages(Send(r, addr, d).video);
  }

  /** What its two low control bits do to the nametables. */
  lemma Mapper1Nametables(m: Machine, start: bv16, reset: bv8, addr: bv16, d: bv8)
    requires m.Valid() && m.video.board.mapper == 1 && start >= 0x8000 && reset & 0x80 != 0 && d < 32
    requires 0x8000 <= addr < 0xa000
    ensures var q := Send(Write(m, start, reset).m, addr, d);
            && (d & 3 == 0 ==> Nametables(q.video, 0, 0, 0, 0)) && (d & 3 == 1 ==> Nametables(q.video, 1, 1, 1, 1))
            && (d & 3 == 2 ==> Nametables(q.video, 0, 1, 0, 1)) && (d & 3 == 3 ==> Nametables(q.video, 0, 0, 1, 1))
  {
    hide Write, Nametables, ReadsBanks, FetchesPages, Send, Mapper1Program, Mapper1Patterns, Loaded;
    Mapper1Law(m, start, reset, addr, d);
    SeesNametables(Send(Write(m, start, reset).m, addr, d).video);
  }

  lemma ResetStore(b: Board, c: CartRegs, addr: bv16, val: bv8)
    requires b.mapper == 1 && val & 0x80 != 0
    ensures MapperWrite(b, c, addr, val) == c.(mmc1Bits := 5, mmc1Data := 0, mmc1Ctrl := c.mmc1Ctrl | 12)
  {
  }

  lemma SentCart(r: Machine, addr: bv16, d: bv8)
    requires r.Valid() && r.video.board.mapper == 1 && addr >= 0x8000 && d < 32
    requires r.video.cart.mmc1Bits == 5 && r.video.cart.mmc1Data == 0
    ensures var b, q := r.video.board, Send(r, addr, d);
            && q.pending == 0 && q.video.board == b
            && q.video.cart == Mapper1Banks(b, Mapper1Load(r.video.cart.(mmc1Data := d, mmc1Bits := 0), addr))
  {
    hide Write, MapperWrite, Mapper1Banks, Mapper1Load;
    FiveStores(r.video.board, r.video.cart, addr, d);
    var m1 := Write(r, addr, d & 1).m;
    MapperStore(r, addr, d & 1);
    var m2 := Write(m1, addr, (d >> 1) & 1).m;
    MapperStore(m1, addr, (d >> 1) & 1);
    var m3 := Write(m2, addr, (d >> 2) & 1).m;
    MapperStore(m2, addr, (d >> 2) & 1);
    var m4 := Write(m3, addr, (d >> 3) & 1).m;
    MapperStore(m3, addr, (d >> 3) & 1);
    MapperStore(m4, addr, (d >> 4) & 1);
  }

  lemma LoadedRegister(c: CartRegs, addr: bv16, d: bv8)
    requires addr >= 0x8000
    ensures var q := Mapper1Load(c.(mmc1Data := d, mmc1Bits := 0), addr);
            && SerialOf(q) == Loaded(SerialOf(c), addr, d) && q.prg == c.prg && q.chr == c.chr
            && q.mirror == if addr < 0xa000 then d & 3 else c.mirror
  {
    hide Region;
    Regions(addr);
  }

  lemma SerialPrograms(b: Board, c: CartRegs)
    ensures var q, r := Mapper1Banks(b, c), SerialOf(c);
            SerialOf(q) == r && q.mirror == c.mirror && q.prg == Paired(c.prg, Mapper1Program(b, r))
  {
  }

  lemma SerialPatterns(b: Board, c: CartRegs)
    ensures var q, r := Mapper1Banks(b, c), SerialOf(c);
            q.chr[0] == Mapper1Patterns(r).0 && q.chr[1] == Mapper1Patterns(r).1
  {
  }

  lemma LoadedBanks(b: Board, c: CartRegs, addr: bv16, d: bv8)
    requires addr >= 0x8000
    ensures var q := Mapper1Banks(b, Mapper1Load(c.(mmc1Data := d, mmc1Bits := 0), addr));
            var r := Loaded(SerialOf(c), addr, d);
            && SerialOf(q) == r && q.mirror == (if addr < 0xa000 then d & 3 else c.mirror)
            && q.prg == Paired(c.prg, Mapper1Program(b, r))
            && q.chr[0] == Mapper1Patterns(r).0 && q.chr[1] == Mapper1Patterns(r).1
  {
    hide Mapper1Load, Mapper1Banks, Mapper1Program, Mapper1Patterns, Loaded;
    LoadedRegister(c, addr, d);
    SerialPrograms(b, Mapper1Load(c.(mmc1Data := d, mmc1Bits := 0), addr));
    SerialPatterns(b, Mapper1Load(c.(mmc1Data := d, mmc1Bits := 0), addr));
  }
}
