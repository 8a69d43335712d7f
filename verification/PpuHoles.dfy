/** The writes `PostponedDots.Hole` singles out are exactly the ones a postponed picture
  unit gets wrong.
 */
module PpuHoles {
  import opened PpuModel
  import opened Ticking
  import opened CpuBus
  import opened PostponedDots

  /** Storing `val` at `addr` never shows, on this board, whether dots were pending. */
  ghost predicate Invisible(b: Board, addr: bv16, val: bv8) {
    forall m: Machine | m.Valid() && m.video.board == b ::
      Write(Flush(m), addr, val) == Reply(Flush(Write(m, addr, val).m), Write(m, addr, val).byte)
  }

  /** A machine at the left edge of scanline 10 with one dot pending, nothing drawn yet. */
  function AtLineStart(b: Board, c: CartRegs, chrData: nat -> bv8, oam: seq<bv8>, ctrl: bv8): (m: Machine)
    requires |oam| == 256
    ensures m.Valid()
  {
    var v := Video(b, c, chrData, seq(2048, i => 0), seq(256, i => 0), oam,
                   Ports(0, 0, false, ctrl, 24, 0),
                   Raster(0, Latches(0, 0, 0, 0), Shifters(0, 0, 0), 0, seq(61440, i => 0), seq(61440, i => 0)),
                   Line(10, 0, seq(256, i => 0), false), 0, []);
    Machine(v, seq(8192, i => 0), seq(8192, i => 0), 0, Inputs(_ => 0, _ => 0), 0, 1)
  }

  /** Sprite 0 covers the left edge of scanline 10, or is below the screen. */
  function OneSprite(visible: bool): (oam: seq<bv8>)
    ensures |oam| == 256
  {
    [if visible then 9 else 255, 0, 0, 0] + seq(252, i => 0)
  }

  /** The sprite-0 flag after the pending dot tells whether sprite 0 is opaque at the left edge. */
  lemma StatusTellsSprite(m: Machine)
    requires m.Valid() && m.pending == 1 && m.video.raster.dot == 0
    requires m.video.ports.mask & 16 != 0 && m.video.raster.status == 0
    ensures Flush(m).video.raster.status & 64 != 0 <==> SpriteCell(m.video.AsSprites(), 0, 0) != 0
  {
    VisibleTicks(m.video, 1);
    var l := LineReady(m.video);
    var p := Pixels(l.AsScene(), l.raster, 0);
    assert Pixels(l.AsScene(), l.raster, 1) == Pixel(l.AsScene(), p);
    assert l.line.sprites[0] == FirstSprite(m.video.AsSprites(), 0, 64, 0);
    assert Flush(m).video.raster.status == PixelShade(l.AsScene(), p).status by { hide PixelShade, FirstSprite; }
    hide SpriteCell, FirstSprite;
  }

  /** What a program sees when it next reads $2002. */
  function StatusSeen(m: Machine): bv8
    requires m.Valid()
  {
    Read(m, 0x2002).byte
  }

  lemma StatusSeenIsFlushed(m: Machine)
    requires m.Valid()
    ensures StatusSeen(m) == Flush(m).video.raster.status & 0xe0
  {
    hide Flush;
  }

  /** Two machines whose pending dot hits, and does not hit, sprite 0 read differently. */
  lemma HitIsSeen(m: Machine, hit: bool, q: Machine)
    requires m.Valid() && q.Valid()
    requires Flush(m).video.raster.status & 64 != 0 <==> hit
    requires Flush(q).video.raster.status & 64 != 0 <==> !hit
    ensures StatusSeen(m) != StatusSeen(q)
  {
    hide Flush, StatusSeen;
    StatusSeenIsFlushed(m);
    StatusSeenIsFlushed(q);
  }

  // ------------------------------------------------------------- sprite DMA

  /** Away from the registers a read neither sees nor changes the sprite memory. */
  lemma ReadIgnoresOam(m: Machine, oam: seq<bv8>, addr: bv16)
    requires m.Valid() && |oam| == 256 && !NeedsFlush(addr, false)
    ensures Read(m, addr).m.video == m.video && Read(m, addr).m.pending == m.pending
    ensures Read(m.(video := m.video.(oam := oam)), addr)
         == Reply(Read(m, addr).m.(video := m.video.(oam := oam)), Read(m, addr).byte)
  {
    hide Flush;
  }

  /** The byte round `i` of a DMA stores. */
  function DmaByte(m: Machine, page: bv8, i: nat): bv8
    requires m.Valid() && i < 256
  {
    Read(m, ((page as bv16) << 8) | (i as bv16)).byte
  }

  /** One round from outside the registers stores one cell, whatever the cells held. */
  lemma DmaStepStores(m: Machine, page: bv8, i: nat, oam: seq<bv8>)
    requires m.Valid() && !(0x20 <= page < 0x40) && i < 256 && |oam| == 256
    ensures DmaStep(m, page, i).pending == m.pending
    ensures DmaStep(m, page, i).video == m.video.(oam := m.video.oam[i := DmaByte(m, page, i)])
    ensures DmaStep(WithOam(m, oam), page, i) == WithOam(DmaStep(m, page, i), oam[i := DmaByte(m, page, i)])
  {
    hide Read;
    ReadIgnoresOam(m, oam, ((page as bv16) << 8) | (i as bv16));
  }

  /** A DMA from outside the registers stores its cells and leaves the picture unit alone. */
  lemma {:induction false} DmaOnlyStores(m: Machine, page: bv8, n: nat)
    requires m.Valid() && !(0x20 <= page < 0x40) && n <= 256
    ensures SpriteDma(m, page, n).pending == m.pending
    ensures SpriteDma(m, page, n).video == m.video.(oam := SpriteDma(m, page, n).video.oam)
    decreases n
  {
    hide DmaStep, DmaByte;
    if n > 0 {
      DmaStepStores(m, page, n - 1, m.video.oam);
      DmaOnlyStores(DmaStep(m, page, n - 1), page, n - 1);
    }
  }

  function WithOam(m: Machine, oam: seq<bv8>): Machine { m.(video := m.video.(oam := oam)) }

  /** A DMA of all cells forgets what the sprite memory held: only cells from `n` on matter. */
  lemma {:induction false} DmaForgets(m: Machine, oam: seq<bv8>, page: bv8, n: nat)
    requires m.Valid() && |oam| == 256 && !(0x20 <= page < 0x40) && n <= 256
    requires m.video.oam[n..] == oam[n..]
    ensures SpriteDma(WithOam(m, oam), page, n) == SpriteDma(m, page, n)
    decreases n
  {
    hide DmaStep, DmaByte;
    if n == 0 {
      assert oam == oam[0..] && m.video.oam == m.video.oam[0..];
    } else {
      DmaStepStores(m, page, n - 1, oam);
      var byte := DmaByte(m, page, n - 1);
      var p, q := m.video.oam[n - 1 := byte], oam[n - 1 := byte];
      assert p[n - 1..] == [byte] + m.video.oam[n..] && q[n - 1..] == [byte] + oam[n..];
      DmaForgets(DmaStep(m, page, n - 1), q, page, n - 1);
    }
  }

  /** Through a hole the DMA loads the sprites first and leaves the dots pending. */
  lemma DmaHoleStep(m: Machine, addr: bv16, val: bv8)
    requires m.Valid() && 0x4000 <= addr < 0x5000 && Hole(m.video.board, addr, val)
    ensures Write(m, addr, val).m.pending == m.pending
    ensures Write(m, addr, val).m.video == m.video.(oam := SpriteDma(m, val, |m.video.oam|).video.oam)
    ensures Flush(Write(Flush(m), addr, val).m).video.raster == Flush(m).video.raster
  {
    hide Flush, SpriteDma;
    DmaOnlyStores(m, val, |m.video.oam|);
    DmaOnlyStores(Flush(m), val, |m.video.oam|);
    FlushKeepsOutside(m);
    FlushSettled(Write(Flush(m), addr, val).m);
  }

  lemma OneSpriteShows(m: Machine, visible: bool)
    requires m.Valid() && m.video.oam == OneSprite(visible) && m.video.line.scany == 10 && m.video.ports.ctrl == 0
    requires visible ==> m.video.AsBus().Chr(0) == 255
    ensures SpriteCell(m.video.AsSprites(), 0, 0) != 0 <==> visible
  {
    var e := m.video.AsSprites();
    assert e.oam[4 * 0] == if visible then 9 else 255;
    assert e.oam[4 * 0 + 1] == 0 && e.oam[4 * 0 + 2] == 0 && e.oam[4 * 0 + 3] == 0;
    assert SpriteRow(e, 0) == if visible then 0 else 0xff0a;
    assert SpriteAddress(0, 0, 0, 0) == 0;
    hide Bus.Chr, SpriteAddress, SpriteRow;
  }

  const COLD: CartRegs :=
    Cart([0, 0, 0, 0], [0, 0, 0, 0, 0, 0, 0, 0], 0, 0, 0, 0, 0, 0, 0, [0, 0, 0, 0, 0, 0, 0, 0], 0, 0, 0)

  /** Status read after the store, when the store itself happens after the pending dot. */
  lemma SeenWhenSettled(m: Machine, w: Machine)
    requires m.Valid() && w.Valid() && Flush(w).video.raster == Flush(m).video.raster
    ensures StatusSeen(w) == StatusSeen(m)
  {
    hide Flush, StatusSeen;
    StatusSeenIsFlushed(m);
    StatusSeenIsFlushed(w);
  }

  /** Every DMA hole can be seen: some machine answers its next $2002 read differently. */
  lemma DmaHoleIsSeen(b: Board, addr: bv16, val: bv8) returns (m: Machine)
    requires 0x4000 <= addr < 0x5000 && Hole(b, addr, val)
    ensures m.Valid() && m.video.board == b
    ensures StatusSeen(Write(m, addr, val).m) != StatusSeen(Write(Flush(m), addr, val).m)
  {
    hide Flush, Write, SpriteDma, SpriteCell, StatusSeen, OneSprite;
    var shown := AtLineStart(b, COLD, _ => 255, OneSprite(true), 0);
    var hidden := WithOam(shown, OneSprite(false));
    DmaForgets(shown, OneSprite(false), val, |shown.video.oam|);
    var loaded := SpriteDma(shown, val, |shown.video.oam|).video.oam;
    var hit := SpriteCell(WithOam(shown, loaded).video.AsSprites(), 0, 0) != 0;
    OneSpriteShows(shown, true);
    OneSpriteShows(hidden, false);
    m := if hit then hidden else shown;
    DmaHoleStep(m, addr, val);
    assert Write(m, addr, val).m.video == WithOam(shown, loaded).video;
    StatusTellsSprite(m);
    StatusTellsSprite(Write(m, addr, val).m);
    HitIsSeen(Write(m, addr, val).m, hit, m);
    SeenWhenSettled(m, Write(Flush(m), addr, val).m);
  }

  // ----------------------------------------------------------- mapper writes

  /** Through a mapper hole the banks move first and the dots stay pending. */
  lemma MapperHoleStep(m: Machine, addr: bv16, val: bv8)
    requires m.Valid() && 0x5000 <= addr < 0x6000
    ensures Write(m, addr, val).m.pending == m.pending
    ensures Write(m, addr, val).m.video == m.video.(cart := MapperWrite(m.video.board, m.video.cart, addr, val))
    ensures Flush(Write(Flush(m), addr, val).m).video.raster == Flush(m).video.raster
  {
    hide Flush, MapperWrite;
    FlushKeepsOutside(m);
    FlushSettled(Write(Flush(m), addr, val).m);
  }

  /** Pattern memory that is solid in one 4k bank and empty elsewhere. */
  function SolidBank(bank: nat): nat -> bv8 {
    (i: nat) => if i / 4096 == bank then 255 else 0
  }

  lemma BankOf(bank: nat, low: nat)
    requires low < 4096
    ensures (bank * 4096 + low) / 4096 == bank
  {
  }

  /** The pattern bytes of tile 0 come from bank 0, or from bank 1 of the second table. */
  lemma TileZero(b: Board, banks: seq<bv8>, second: bool)
    requires b.mapper != 4 && |banks| == 8
    ensures ChrIndex(b, banks, if second then 0x1000 else 0) / 4096 == (banks[if second then 1 else 0] as nat)
    ensures ChrIndex(b, banks, if second then 0x1008 else 8) / 4096 == (banks[if second then 1 else 0] as nat)
  {
    BankOf(banks[if second then 1 else 0] as nat, 0);
    BankOf(banks[if second then 1 else 0] as nat, 8);
  }

  /** A machine whose sprite 0 is drawn from pattern bank `k`, solid only in bank `solid`. */
  function OnBank(b: Board, c: CartRegs, second: bool, solid: nat): (m: Machine)
    ensures m.Valid()
  {
    AtLineStart(b, c, SolidBank(solid), OneSprite(true), if second then 8 else 0)
  }

  lemma BankShows(b: Board, c: CartRegs, d: CartRegs, second: bool, solid: nat)
    requires b.mapper != 4
    ensures var m := OnBank(b, c, second, solid);
            SpriteCell(m.video.(cart := d).AsSprites(), 0, 0) != 0
            <==> d.chr[if second then 1 else 0] as nat == solid
  {
    var m := OnBank(b, c, second, solid);
    var e := m.video.(cart := d).AsSprites();
    TileZero(b, d.chr, second);
    assert e.oam[4 * 0] == 9 && e.oam[4 * 0 + 1] == 0 && e.oam[4 * 0 + 2] == 0 && e.oam[4 * 0 + 3] == 0;
    assert SpriteRow(e, 0) == 0;
    assert SpriteAddress(e.ctrl, 0, 0, 0) == if second then 0x1000 else 0;
    hide SpriteAddress, SpriteRow, ChrIndex;
  }

  /** Registers whose bank on screen the store through the hole replaces. */
  function BankedCart(b: Board, val: bv8): (c: CartRegs) {
    if b.mapper == 3
    then COLD.(chr := [((val + 1) & 3) * 2, 0, 0, 0, 0, 0, 0, 0])
    else COLD.(chr := [0, 3, 0, 0, 0, 0, 0, 0], mmc1Bits := 1)
  }

  lemma BankMoves(b: Board, addr: bv16, val: bv8, k: nat)
    requires 0x5000 <= addr < 0x6000 && Hole(b, addr, val) && b.mapper != 7
    requires k == if b.mapper == 1 then 1 else 0
    ensures MapperWrite(b, BankedCart(b, val), addr, val).chr[k] != BankedCart(b, val).chr[k]
  {
  }

  /** Mapper 3, and mapper 1 with the fifth bit of a transfer, move a bank that is on screen. */
  lemma BankHoleIsSeen(b: Board, addr: bv16, val: bv8) returns (m: Machine)
    requires 0x5000 <= addr < 0x6000 && Hole(b, addr, val) && b.mapper != 7
    ensures m.Valid() && m.video.board == b
    ensures StatusSeen(Write(m, addr, val).m) != StatusSeen(Write(Flush(m), addr, val).m)
  {
    hide Flush, Write, MapperWrite, SpriteCell, StatusSeen, OneSprite, SolidBank, BankedCart;
    var c := BankedCart(b, val);
    var second := b.mapper == 1;
    var k := if second then 1 else 0;
    BankMoves(b, addr, val, k);
    m := OnBank(b, c, second, c.chr[k] as nat);
    BankShows(b, c, c, second, c.chr[k] as nat);
    BankShows(b, c, MapperWrite(b, c, addr, val), second, c.chr[k] as nat);
    assert m.video.(cart := c) == m.video;
    MapperHoleStep(m, addr, val);
    StatusTellsSprite(m);
    StatusTellsSprite(Write(m, addr, val).m);
    HitIsSeen(Write(m, addr, val).m, false, m);
    SeenWhenSettled(m, Write(Flush(m), addr, val).m);
  }

  /** Mapper 7 switches the nametable under a pending fetch. */
  lemma MirrorHoleShows(b: Board, addr: bv16, val: bv8) returns (m: Machine)
    requires 0x5000 <= addr < 0x6000 && b.mapper == 7
    ensures m.Valid() && m.video.board == b
    ensures Flush(Write(m, addr, val).m) != Write(Flush(m), addr, val).m
  {
    var to: bv8 := if val >> 4 == 0 then 1 else 0;
    var c := COLD.(mirror := 1 - to);
    var v := AtLineStart(b, c, _ => 0, OneSprite(false), 0);
    var vram := seq(2048, i => if i < 1024 then 0 else 1);
    m := v.(video := v.video.(vram := vram).WithDot(1));
    MapperHoleStep(m, addr, val);
    OneFetch(m);
    OneFetch(Write(m, addr, val).m);
    hide Flush, Write, MapperWrite, OneSprite;
    FlushSettled(Write(Flush(m), addr, val).m);
  }

  /** The dot after the line start fetches the nametable byte V points at. */
  lemma OneFetch(m: Machine)
    requires m.Valid() && m.pending == 1 && m.video.raster.dot == 1
    ensures Flush(m).video.raster.latches.ntb == m.video.AsBus().Nametable(m.video.raster.latches.v)
  {
    VisibleTicks(m.video, 1);
    var sc := m.video.AsScene();
    assert Pixels(sc, m.video.raster, 1) == Pixel(sc, Pixels(sc, m.video.raster, 0));
    hide Draw, Bus.Nametable;
  }

  /** Main result: a store never shows whether dots were pending if and only if it is not
    one of the holes. */
  lemma InvisibleIffNotHole(b: Board, addr: bv16, val: bv8)
    ensures Invisible(b, addr, val) <==> !Hole(b, addr, val)
  {
    hide Flush, Write, StatusSeen;
    if !Hole(b, addr, val) {
      forall m: Machine | m.Valid() && m.video.board == b
        ensures Write(Flush(m), addr, val) == Reply(Flush(Write(m, addr, val).m), Write(m, addr, val).byte)
      {
        WriteCommutes(m, addr, val);
      }
    } else if b.mapper == 7 && addr >= 0x5000 {
      var m := MirrorHoleShows(b, addr, val);
    } else if addr < 0x5000 {
      var m := DmaHoleIsSeen(b, addr, val);
      SeenIsNotEqual(m, addr, val);
    } else {
      var m := BankHoleIsSeen(b, addr, val);
      SeenIsNotEqual(m, addr, val);
    }
  }

  lemma SeenIsNotEqual(m: Machine, addr: bv16, val: bv8)
    requires m.Valid() && StatusSeen(Write(m, addr, val).m) != StatusSeen(Write(Flush(m), addr, val).m)
    ensures Flush(Write(m, addr, val).m) != Write(Flush(m), addr, val).m
  {
    hide Flush, Write, StatusSeen;
    StatusSeenIsFlushed(Write(m, addr, val).m);
    StatusSeenIsFlushed(Write(Flush(m), addr, val).m);
    FlushSettled(Write(Flush(m), addr, val).m);
  }
}
