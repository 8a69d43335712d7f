/** Facts about evaluating a scanline's sprites in OAM order. */
module SpriteEval {
  import opened PpuModel

  /** The three swaps that mirror a pattern byte. */
  function MirrorByte(b: bv8): bv8 {
    var b1 := ((b & 0xF0) >> 4) | ((b & 0x0F) << 4);
    var b2 := ((b1 & 0xCC) >> 2) | ((b1 & 0x33) << 2);
    ((b2 & 0xAA) >> 1) | ((b2 & 0x55) << 1)
  }

  /** They reverse the bits. */
  lemma MirrorReverses(b: bv8, k: bv8)
    requires k < 8
    ensures (MirrorByte(b) >> (7 - k)) & 1 == (b >> k) & 1
  {
  }

  function PatternColor(lo: bv8, hi: bv8, dx: nat): (c: bv8)
    requires dx < 8
    ensures c < 4
  {
    var offset: bv8 := 7 - (dx as bv8);
    (((hi >> offset) & 1) << 1) | ((lo >> offset) & 1)
  }

  lemma MirroredColor(lo: bv8, hi: bv8, attr: bv8, dx: nat)
    requires dx < 8
    ensures SpriteColor(lo, hi, attr, dx)
         == if attr & 64 != 0 then PatternColor(MirrorByte(lo), MirrorByte(hi), dx) else PatternColor(lo, hi, dx)
  {
    MirrorReverses(lo, dx as bv8);
    MirrorReverses(hi, dx as bv8);
    hide MirrorByte;
  }

  /** Looking at one more sprite only fills columns that were still empty. */
  lemma {:induction false} FirstSpriteAppend(e: Sprites, i: nat, n: nat, x: nat)
    requires e.Valid() && i <= n < 64 && x < 256
    ensures FirstSprite(e, i, n + 1, x)
         == if FirstSprite(e, i, n, x) != 0 then FirstSprite(e, i, n, x) else SpriteCell(e, n, x)
    decreases n - i
  {
    hide SpriteCell;
    if i < n { FirstSpriteAppend(e, i + 1, n, x); }
  }

  /** The pattern bytes `lo` and `hi` give sprite `i` its cells. */
  ghost predicate Patterned(e: Sprites, i: nat, lo: bv8, hi: bv8)
    requires e.Valid() && i < 64
  {
    forall x: nat | x < 256 ::
      SpriteCell(e, i, x) == if e.oam[4 * i + 3] as nat <= x < e.oam[4 * i + 3] as nat + 8
                             then CellOf(PatternColor(lo, hi, x - e.oam[4 * i + 3] as nat), e.oam[4 * i + 2], i)
                             else 0
  }

  predicate NonEmpty(row: seq<bv8>) { exists x: nat | x < |row| :: row[x] != 0 }

  /** The row when sprites before `i` are in it, and sprite `i` in columns `left` to `to` - 1. */
  ghost function RowSoFar(e: Sprites, i: nat, left: nat, to: nat): (row: seq<bv8>)
    requires e.Valid() && i < 64
    ensures |row| == 256
  {
    seq(256, x requires 0 <= x < 256 =>
      if left <= x < to then FirstSprite(e, 0, i + 1, x) else FirstSprite(e, 0, i, x))
  }

  ghost function RowOf(e: Sprites, i: nat): (row: seq<bv8>)
    requires e.Valid() && i <= 64
    ensures |row| == 256
  {
    seq(256, x requires 0 <= x < 256 => FirstSprite(e, 0, i, x))
  }

  lemma RowStart(e: Sprites, i: nat, left: nat)
    requires e.Valid() && i < 64
    ensures RowSoFar(e, i, left, left) == RowOf(e, i)
  {
    hide FirstSprite;
  }

  lemma RowStep(e: Sprites, i: nat, left: nat, to: nat)
    requires e.Valid() && i < 64 && left <= to < 256
    ensures var row := RowSoFar(e, i, left, to);
            RowSoFar(e, i, left, to + 1) == if row[to] == 0 then row[to := SpriteCell(e, i, to)] else row
  {
    hide FirstSprite, SpriteCell;
    FirstSpriteAppend(e, 0, i, to);
    var row := RowSoFar(e, i, left, to);
    assert row[to] == FirstSprite(e, 0, i, to);
  }

  lemma RowEnd(e: Sprites, i: nat, left: nat, to: nat)
    requires e.Valid() && i < 64 && left <= to <= 256
    requires forall x: nat | x < 256 && !(left <= x < to) :: SpriteCell(e, i, x) == 0
    ensures RowSoFar(e, i, left, to) == RowOf(e, i + 1)
  {
    hide FirstSprite, SpriteCell;
    forall x: nat | x < 256 ensures RowSoFar(e, i, left, to)[x] == RowOf(e, i + 1)[x] {
      FirstSpriteAppend(e, 0, i, x);
    }
  }

  /** A row number beyond the sprite: the scanline does not cut it. */
  predicate Misses(row: bv16, ctrl: bv8) { row >= SpriteHeight(ctrl) }

  /** A sprite that misses the scanline leaves the row alone. */
  lemma RowSkips(e: Sprites, i: nat)
    requires e.Valid() && i < 64 && Misses(SpriteRow(e, i), e.ctrl)
    ensures RowOf(e, i + 1) == RowOf(e, i)
  {
    hide FirstSprite, SpriteRow, SpriteHeight;
    RowEnd(e, i, 0, 0);
    RowStart(e, i, 0);
  }

  /** The pattern bytes fetched for a sprite on the scanline, mirrored when asked, give its cells. */
  lemma PatternsAreCells(e: Sprites, i: nat, lo: bv8, hi: bv8)
    requires e.Valid() && i < 64 && SpriteRow(e, i) < SpriteHeight(e.ctrl)
    requires var attr := e.oam[4 * i + 2];
             var a := SpriteAddress(e.ctrl, e.oam[4 * i + 1], attr, SpriteRow(e, i));
             && lo == (if attr & 64 != 0 then MirrorByte(e.bus.Chr(a)) else e.bus.Chr(a))
             && hi == (if attr & 64 != 0 then MirrorByte(e.bus.Chr(a + 8)) else e.bus.Chr(a + 8))
    ensures Patterned(e, i, lo, hi)
  {
    var attr := e.oam[4 * i + 2];
    var a := SpriteAddress(e.ctrl, e.oam[4 * i + 1], attr, SpriteRow(e, i));
    forall x: nat | x < 256
      ensures SpriteCell(e, i, x) == if e.oam[4 * i + 3] as nat <= x < e.oam[4 * i + 3] as nat + 8
                                     then CellOf(PatternColor(lo, hi, x - e.oam[4 * i + 3] as nat), attr, i) else 0
    {
      CellIsPatterned(e, i, lo, hi, x, attr, a, e.oam[4 * i + 3] as nat);
    }
  }

  lemma CellIsPatterned(e: Sprites, i: nat, lo: bv8, hi: bv8, x: nat, attr: bv8, a: bv16, left: nat)
    requires e.Valid() && i < 64 && SpriteRow(e, i) < SpriteHeight(e.ctrl) && x < 256
    requires attr == e.oam[4 * i + 2] && left == e.oam[4 * i + 3] as nat && a < 0x1ff8 && a + 8 < 0x2000
    requires a == SpriteAddress(e.ctrl, e.oam[4 * i + 1], attr, SpriteRow(e, i))
    requires lo == (if attr & 64 != 0 then MirrorByte(e.bus.Chr(a)) else e.bus.Chr(a))
    requires hi == (if attr & 64 != 0 then MirrorByte(e.bus.Chr(a + 8)) else e.bus.Chr(a + 8))
    ensures SpriteCell(e, i, x) == if left <= x < left + 8 then CellOf(PatternColor(lo, hi, x - left), attr, i) else 0
  {
    hide SpriteColor, PatternColor, MirrorByte, SpriteAddress, SpriteRow, SpriteHeight, CellOf, Bus.Chr;
    if left <= x < left + 8 {
      MirroredColor(e.bus.Chr(a), e.bus.Chr(a + 8), attr, x - left);
    }
  }

  /** `cell` is what column `x` shows of the first `n` sprites: the cell of the first one, in
    OAM order, that is opaque there. */
  ghost predicate ShowsFirst(e: Sprites, n: nat, x: nat, cell: bv8)
    requires e.Valid() && n <= 64 && x < 256
  {
    if cell == 0 then forall k: nat | k < n :: SpriteCell(e, k, x) == 0
    else exists k: nat | k < n :: SpriteCell(e, k, x) == cell && forall j: nat | j < k :: SpriteCell(e, j, x) == 0
  }

  lemma {:induction false} FirstIsShown(e: Sprites, n: nat, x: nat)
    requires e.Valid() && n <= 64 && x < 256
    ensures ShowsFirst(e, n, x, FirstSprite(e, 0, n, x))
  {
    hide SpriteCell;
    if n > 0 {
      FirstIsShown(e, n - 1, x);
      FirstSpriteAppend(e, 0, n - 1, x);
    }
  }

  /** A row is the sprite row of the scanline if and only if each of its columns shows the
    first opaque sprite. */
  lemma LineShowsFirst(e: Sprites, row: seq<bv8>)
    requires e.Valid() && |row| == 256
    ensures row == SpriteLine(e) <==> forall x: nat | x < 256 :: ShowsFirst(e, 64, x, row[x])
  {
    hide SpriteCell, FirstSprite;
    forall x: nat | x < 256
      ensures ShowsFirst(e, 64, x, row[x]) <==> row[x] == FirstSprite(e, 0, 64, x)
    {
      FirstIsShown(e, 64, x);
    }
  }

  lemma RowIsLine(e: Sprites)
    requires e.Valid()
    ensures RowOf(e, 64) == SpriteLine(e)
  {
    hide FirstSprite;
  }

  lemma RowZero(e: Sprites)
    requires e.Valid()
    ensures RowOf(e, 0) == seq(256, _ => 0) && !NonEmpty(RowOf(e, 0))
  {
  }
}
