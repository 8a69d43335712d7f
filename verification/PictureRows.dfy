/** From the dots of line 261 to the picture on the screen. */
module PictureRows {
  import opened PpuModel
  import opened Ticking
  import opened FrameShown
  import opened LinesOnward
  import opened Scrolling
  import opened Plane
  import opened ScrolledPicture

  // --------------------------------------------------------------- row numbers

  /** V as a row of two nametables, one below the other: 240 lines each. */
  function RowNumber(v: bv16): nat { 240 * Half(v) + 8 * CoarseY(v) + FineY(v) }

  function Half(v: bv16): (n: nat)
    ensures n < 2
  {
    ((v >> 11) & 1) as nat
  }

  function CoarseY(v: bv16): (n: nat)
    ensures n < 32
  {
    ((v >> 5) & 31) as nat
  }

  function FineY(v: bv16): (n: nat)
    ensures n < 8
  {
    ((v >> 12) & 7) as nat
  }

  lemma RowIsNat(v: bv16)
    ensures RowIn(v) < 256 && RowIn(v) as nat == 8 * CoarseY(v) + FineY(v)
  {
    var c, f := (v >> 5) & 31, (v >> 12) & 7;
    assert RowIn(v) == (c << 3) + f;
    ByteOfParts(c, f);
  }

  lemma ByteOfParts(c: bv16, f: bv16)
    requires c < 32 && f < 8
    ensures ((c << 3) + f) as nat == 8 * (c as nat) + (f as nat)
  {
  }

  lemma RowBelowIs(row: bv16)
    requires row < 256
    ensures RowBelow(row) < 256 && (row < 240 ==> RowBelow(row) < 240)
    ensures row == 239 || row == 255 ==> RowBelow(row) == 0 && RowBelow(row) as nat == 0
    ensures row != 239 && row != 255 ==> RowBelow(row) as nat == row as nat + 1
  {
  }

  lemma TableBelowIs(lower: bv16, row: bv16)
    requires lower < 2
    ensures TableBelow(lower, row) < 2 && lower as nat < 2
    ensures row == 239 ==> row as nat == 239 && TableBelow(lower, row) as nat == 1 - lower as nat
    ensures row != 239 ==> TableBelow(lower, row) == lower
  {
  }

  lemma Sizes(row: bv16)
    ensures row < 240 <==> row as nat < 240
    ensures row < 256 <==> row as nat < 256
    ensures row == 239 <==> row as nat == 239
    ensures row == 255 <==> row as nat == 255
  {
  }

  /** The row of a place, through two nametables one below the other. */
  function RowOf(p: Place): nat { 240 * (p.lower as nat) + (p.row as nat) }

  lemma NextOf480(a: nat, r: nat)
    requires a < 2 && r < 240
    ensures (240 * a + r + 1) % 480 == if r == 239 then 240 * (1 - a) else 240 * a + r + 1
  {
  }

  /** A line down is the next row of the 480, within the rows of tiles. */
  lemma BelowIsNext(p: Place)
    requires InPlane(p)
    ensures InPlane(Below(p)) && Below(p).col == p.col
    ensures p.row < 240 ==> Below(p).row < 240 && RowOf(Below(p)) == (RowOf(p) + 1) % 480
    ensures 240 <= p.row < 255 ==> Below(p).lower == p.lower && Below(p).row as nat == p.row as nat + 1
    ensures p.row == 255 ==> Below(p).lower == p.lower && Below(p).row == 0
  {
    hide RowBelow, TableBelow;
    RowBelowIs(p.row);
    TableBelowIs(p.lower, p.row);
    Sizes(p.row);
    if p.row < 240 {
      NextOf480(p.lower as nat, p.row as nat);
    }
  }

  lemma NextRow(a: nat, n: nat)
    ensures ((a + n) % 480 + 1) % 480 == (a + n + 1) % 480
  {
  }

  /** Many lines down from a row of tiles. */
  lemma {:induction false} DownIs(p: Place, n: nat)
    requires InPlane(p) && p.row < 240
    ensures var q := DownBy(p, n); InPlane(q) && q.col == p.col && q.row < 240 && RowOf(q) == (RowOf(p) + n) % 480
  {
    hide Below, RowOf;
    if n > 0 {
      DownIs(p, n - 1);
      BelowIsNext(DownBy(p, n - 1));
      NextRow(RowOf(p), n - 1);
    } else {
      InTwoTables(p);
    }
  }

  lemma InTwoTables(p: Place)
    requires InPlane(p) && p.row < 240
    ensures RowOf(p) % 480 == RowOf(p)
  {
    hide TableBelow;
    TableBelowIs(p.lower, p.row);
    Sizes(p.row);
  }

  lemma RightIs(c: bv16)
    requires c < 64
    ensures Right(c) < 64 && c as nat < 64 && Right(c) as nat == (c as nat + 1) % 64
  {
    if c != 63 {
      OneRight(c);
    }
  }

  lemma OneRight(c: bv16)
    requires c < 63
    ensures Right(c) == c + 1 && (c + 1) as nat == c as nat + 1 && c as nat < 63
  {
  }

  lemma {:induction false} RightOnly(p: Place, n: nat)
    ensures RightBy(p, n) == p.(col := RightBy(p, n).col)
  {
    hide Right;
    if n > 0 { RightOnly(p, n - 1); }
  }

  lemma NextColumn(a: nat, n: nat)
    ensures ((a + n) % 64 + 1) % 64 == (a + n + 1) % 64
  {
  }

  function ColumnOf(p: Place): nat { p.col as nat }

  lemma OneColumn(p: Place)
    requires InPlane(p)
    ensures ColumnOf(RightOf(p)) == (ColumnOf(p) + 1) % 64 && ColumnOf(p) % 64 == ColumnOf(p)
  {
    hide Right;
    RightIs(p.col);
  }

  /** Many columns to the right, around the 64. */
  lemma {:induction false} RightByIs(p: Place, n: nat)
    requires InPlane(p)
    ensures ColumnOf(RightBy(p, n)) == (ColumnOf(p) + n) % 64
    ensures RightBy(p, n) == p.(col := RightBy(p, n).col)
  {
    hide RightOf, ColumnOf, InPlane;
    RightOnly(p, n);
    OneColumn(p);
    if n > 0 {
      RightByIs(p, n - 1);
      RightInPlane(p, n - 1);
      OneColumn(RightBy(p, n - 1));
      NextColumn(ColumnOf(p), n - 1);
    }
  }

  // ------------------------------------------------------------------ one dot

  /** The dot behind the picture takes V one row down, and its column from T. */
  lemma DotStepsDown(v: Video)
    requires v.Valid() && v.Rendering() && v.line.scany < 240 && v.raster.dot == 256
    ensures var u, q := v.raster.latches.v, Tick(v).raster.latches.v;
            && q & 0x41f == v.ports.t & 0x41f && q & 0x8000 == u & 0x8000
            && (CoarseY(u) < 30 ==> CoarseY(q) < 30 && RowNumber(q) == (RowNumber(u) + 1) % 480)
            && (CoarseY(u) >= 30 ==> Half(q) == Half(u))
            && (CoarseY(u) >= 30 && RowNumber(u) + 1 < 240 * Half(u) + 256 ==> RowNumber(q) == RowNumber(u) + 1)
            && (RowNumber(u) == 240 * Half(u) + 255 ==> RowNumber(q) == 240 * Half(u))
  {
    hide Tick, EndOfLineAddress, CoarseY, FineY, Half, Below;
    LineTurns(v);
    var u, t := v.raster.latches.v, v.ports.t;
    DownSteps(u, t);
    ColumnFromT(u, t);
  }

  lemma ColumnFromT(u: bv16, t: bv16)
    ensures EndOfLineAddress(u, t) & 0x41f == t & 0x41f && EndOfLineAddress(u, t) & 0x8000 == u & 0x8000
  {
  }

  lemma HalfIs(v: bv16)
    ensures Lower(v) < 2 && Half(v) == Lower(v) as nat
  {
  }

  lemma DownSteps(u: bv16, t: bv16)
    ensures var q := EndOfLineAddress(u, t);
            && (CoarseY(u) < 30 ==> CoarseY(q) < 30 && RowNumber(q) == (RowNumber(u) + 1) % 480)
            && (CoarseY(u) >= 30 ==> Half(q) == Half(u))
            && (CoarseY(u) >= 30 && RowNumber(u) + 1 < 240 * Half(u) + 256 ==> RowNumber(q) == RowNumber(u) + 1)
            && (RowNumber(u) == 240 * Half(u) + 255 ==> RowNumber(q) == 240 * Half(u))
  {
    hide EndOfLineAddress, CoarseY, FineY, Half, RowIn, Lower, Col, Below;
    var q := EndOfLineAddress(u, t);
    PlaceBelow(u, t);
    PlaceInPlane(u);
    BelowIsNext(PlaceOf(u));
    PlaceNumbers(u);
    PlaceNumbers(q);
  }

  lemma PlaceBelow(u: bv16, t: bv16)
    ensures PlaceOf(EndOfLineAddress(u, t)) == Below(PlaceOf(u)).(col := Col(t))
  {
    hide EndOfLineAddress, RowIn, Lower, Col;
    EndOfLineLaw(u, t);
  }

  lemma PlaceNumbers(v: bv16)
    ensures var p := PlaceOf(v);
            && RowOf(p) == RowNumber(v) && p.lower as nat == Half(v) && p.row as nat == 8 * CoarseY(v) + FineY(v)
            && (p.row < 240 <==> CoarseY(v) < 30) && (p.row == 255 <==> CoarseY(v) == 31 && FineY(v) == 7)
  {
    hide RowIn, CoarseY, FineY, Half, Lower;
    RowIsNat(v);
    HalfIs(v);
    Sizes(RowIn(v));
  }

  /** The dots on which V is given another row. */
  predicate RowMoves(v: Video) {
    && v.Rendering()
    && ((v.line.scany < 240 && v.raster.dot == 256) || (v.line.scany == 261 && 280 <= v.raster.dot < 305))
  }

  /** The row and the vertical nametable bit are the same. */
  predicate SameRow(u: bv16, q: bv16) { RowIn(q) == RowIn(u) && Lower(q) == Lower(u) }

  lemma SameRowNumber(u: bv16, q: bv16)
    requires SameRow(u, q)
    ensures RowNumber(q) == RowNumber(u)
  {
    hide RowIn, Lower, CoarseY, FineY, Half;
    RowIsNat(u);
    RowIsNat(q);
    HalfIs(u);
    HalfIs(q);
  }

  lemma FetchKeepsRow(bus: Bus, base: bv16, dot: nat, l: Latches)
    requires bus.Valid() && base & 0x1000 == base
    ensures SameRow(l.v, FetchLatches(bus, base, dot, l).v)
  {
    hide AttributeWord, PatternAddress, NextTile, Bus.Chr, Bus.Nametable, RowIn, Lower;
    NextTileLaw(l.v);
  }

  lemma HeadKeepsRow(v: Video)
    requires v.Valid() && !RowMoves(v)
    ensures SameRow(v.raster.latches.v, Head(v).raster.latches.v)
  {
    hide FetchLatches, FetchShifters, ShiftOnce, EndOfLineAddress, RowIn, Lower, SpriteLine, Draw;
    var sc := (if v.raster.dot == 0 && v.line.scany < 240 then StartLine(v) else v).AsScene();
    FetchKeepsRow(sc.bus, sc.base, v.raster.dot, v.raster.latches);
  }

  lemma TailKeepsRow(v: Video)
    requires v.Valid() && !(v.Rendering() && v.line.scany == 261 && 280 <= v.raster.dot < 305)
    ensures Tail(v).raster.latches.v == v.raster.latches.v
  {
  }

  lemma HeadKeepsDot(v: Video)
    requires v.Valid()
    ensures Head(v).line.scany == v.line.scany && Head(v).raster.dot == v.raster.dot
  {
    hide FetchLatches, FetchShifters, ShiftOnce, EndOfLineAddress, SpriteLine, Draw;
  }

  /** Every other dot leaves V in its row. */
  lemma DotKeepsRow(v: Video)
    requires v.Valid() && !RowMoves(v)
    ensures SameRow(v.raster.latches.v, Tick(v).raster.latches.v)
    ensures RowNumber(Tick(v).raster.latches.v) == RowNumber(v.raster.latches.v)
  {
    hide Tick, Head, Tail, RowNumber, SameRow;
    TickIsHeadTail(v);
    HeadKeepsRow(v);
    HeadSameWorld(v);
    HeadKeepsDot(v);
    TailKeepsRow(Head(v));
    SameRowNumber(v.raster.latches.v, Tick(v).raster.latches.v);
  }

  /** The dots of the vertical reload take the row from T. */
  lemma DotReloads(v: Video)
    requires v.Valid() && v.Rendering() && v.line.scany == 261 && 280 <= v.raster.dot < 305
    ensures var u, q := v.raster.latches.v, Tick(v).raster.latches.v;
            q & 0x841f == u & 0x841f && q & 0x7be0 == v.ports.t & 0x7be0 && RowNumber(q) == RowNumber(v.ports.t)
  {
    hide Half, CoarseY, FineY, Reloaded, Tick;
    TickReloads(v);
    ReloadBits(v.raster.latches.v, v.ports.t);
  }

  lemma TickReloads(v: Video)
    requires v.Valid() && v.Rendering() && v.line.scany == 261 && 280 <= v.raster.dot < 305
    ensures var q := Tick(v);
            && q.raster.latches.v == Reloaded(v.raster.latches.v, v.ports.t)
            && q.line == v.line && q.raster.dot == v.raster.dot + 1 && q.frames == v.frames
  {
    hide Tick, Head, FrameEvents, VerticalReload, Mmc3Clock, Reloaded;
    TickIsHeadTail(v);
    HeadKeeps(v);
    LateHead(v);
    EventsKeep(v);
    ClockReloads(v);
    EventsKeepV(VerticalReload(Mmc3Clock(v)));
  }

  lemma LateHead(v: Video)
    requires v.Valid() && v.line.scany >= 240
    ensures Head(v) == v
  {
  }

  lemma ClockReloads(v: Video)
    requires v.Valid() && v.line.scany == 261 && 280 <= v.raster.dot < 305
    ensures VerticalReload(Mmc3Clock(v)).raster.latches.v == Reloaded(v.raster.latches.v, v.ports.t)
  {
    hide Reloaded;
  }

  lemma EventsKeepV(v: Video)
    requires v.Valid()
    ensures FrameEvents(v).raster.latches == v.raster.latches
  {
  }

  lemma ReloadBits(u: bv16, t: bv16)
    ensures var q := Reloaded(u, t);
            && q & 0x841f == u & 0x841f && q & 0x7be0 == t & 0x7be0
            && Half(q) == Half(t) && CoarseY(q) == CoarseY(t) && FineY(q) == FineY(t)
            && (u < 0x8000 ==> q < 0x8000)
  {
  }

  // ------------------------------------------------------------- a whole picture

  lemma {:induction false} DownAdd(p: Place, a: nat, b: nat)
    ensures DownBy(p, a + b) == DownBy(DownBy(p, a), b)
  {
    hide Below;
    if b > 0 { DownAdd(p, a, b - 1); }
  }

  lemma {:induction false} DownInTable(p: Place, n: nat)
    requires InPlane(p) && p.row >= 240 && p.row as nat + n < 256
    ensures var q := DownBy(p, n);
            InPlane(q) && q.row >= 240 && q == p.(row := q.row) && q.row as nat == p.row as nat + n
  {
    hide Below;
    if n > 0 {
      DownInTable(p, n - 1);
      BelowInTable(DownBy(p, n - 1));
    }
  }

  lemma BelowInTable(p: Place)
    requires InPlane(p) && p.row >= 240 && p.row as nat < 255
    ensures var q := Below(p); InPlane(q) && q.row >= 240 && q == p.(row := q.row) && q.row as nat == p.row as nat + 1
  {
    hide RowBelow, TableBelow;
    RowBelowIs(p.row);
    TableBelowIs(p.lower, p.row);
    Sizes(p.row);
    Sizes(RowBelow(p.row));
  }

  /** Many lines down from a line of the attribute rows: to the end of the same nametable, and
    from the top of it again. */
  lemma DownIsLow(p: Place, n: nat)
    requires InPlane(p) && p.row >= 240
    ensures 240 <= p.row as nat < 256
    ensures var q, y := DownBy(p, n), p.row as nat;
            && InPlane(q) && q.col == p.col
            && (y + n < 256 ==> q.lower == p.lower && q.row as nat == y + n)
            && (y + n >= 256 ==> q.row < 240 && RowOf(q) == (240 * (p.lower as nat) + y + n - 256) % 480)
  {
    hide Below, DownBy, RowOf;
    Sizes(p.row);
    if p.row as nat + n < 256 {
      DownInTable(p, n);
    } else {
      DownToTop(p);
      DownAdd(p, 256 - p.row as nat, p.row as nat + n - 256);
      DownIs(DownBy(p, 256 - p.row as nat), p.row as nat + n - 256);
    }
  }

  lemma DownToTop(p: Place)
    requires InPlane(p) && p.row >= 240 && p.row as nat < 256
    ensures var q := DownBy(p, 256 - p.row as nat);
            InPlane(q) && q.row < 240 && q.col == p.col && RowOf(q) == 240 * (p.lower as nat)
  {
    hide Below, DownBy, RowOf;
    var y := p.row as nat;
    DownInTable(p, 255 - y);
    var q := DownBy(p, 255 - y);
    Sizes(q.row);
    BelowIsNext(q);
    DownOne(q);
    DownAdd(p, 255 - y, 1);
    TopOf(Below(q));
  }

  lemma DownOne(p: Place)
    ensures DownBy(p, 1) == Below(p)
  {
    hide Below;
    assert DownBy(p, 1) == Below(DownBy(p, 0));
  }

  lemma TopOf(p: Place)
    requires p.row == 0
    ensures RowOf(p) == 240 * (p.lower as nat)
  {
  }

  // -------------------------------------------------------- the row of every dot

  /** The place after `n` dots is `m` lines down from T's. */
  ghost predicate DownFromT(q: Video, m: nat) {
    var p, d := PlaceOf(q.raster.latches.v), DownBy(PlaceOf(q.ports.t), m);
    p.row == d.row && p.lower == d.lower
  }

  lemma StepsPlace(v: Video, m: nat)
    requires v.Valid() && v.Rendering() && v.line.scany < 240 && v.raster.dot == 256 && DownFromT(v, m)
    requires Tick(v).ports == v.ports
    ensures DownFromT(Tick(v), m + 1)
  {
    hide Tick, RowIn, Lower, Col, RowBelow, TableBelow, EndOfLineAddress;
    LineTurns(v);
    PlaceBelow(v.raster.latches.v, v.ports.t);
  }

  lemma KeepsPlace(v: Video, m: nat)
    requires v.Valid() && !RowMoves(v) && DownFromT(v, m) && Tick(v).ports == v.ports
    ensures DownFromT(Tick(v), m)
  {
    hide Tick, RowIn, Lower, Col, DownBy, RowMoves;
    DotKeepsRow(v);
  }

  /** Lines begun after `n` dots, the one that begins at dot 256 included. */
  function LinesBegun(n: nat): nat { (n + 84) / 341 }

  lemma LineAndDot(n: nat, line: nat, dot: nat)
    requires n == line * 341 + dot && dot < 341
    ensures LinesBegun(n + 1) == LinesBegun(n) + (if dot == 256 then 1 else 0)
    ensures LinesBegun(n) == if dot <= 256 then line else line + 1
  {
  }

  lemma {:induction false} RowAlong(v: Video, n: nat)
    requires v.Valid() && v.Rendering() && v.line.scany == 0 && v.raster.dot == 0 && DownFromT(v, 0) && n <= 81840
    ensures Ticks(v, n).ports == v.ports && DownFromT(Ticks(v, n), LinesBegun(n))
  {
    hide Tick, DownFromT;
    TicksSameWorld(v, n);
    if n > 0 {
      RowAlong(v, n - 1);
      var a := Ticks(v, n - 1);
      TicksMoveBeam(v, n - 1);
      LineAndDot(n - 1, a.line.scany, a.raster.dot);
      if a.raster.dot == 256 {
        StepsPlace(a, LinesBegun(n - 1));
      } else {
        KeepsPlace(a, LinesBegun(n - 1));
      }
    }
  }

  lemma Back(a: bv16)
    ensures (a as nat) as bv16 == a
  {
  }

  lemma RowsAgree(u: bv16, t: bv16)
    requires RowNumber(u) == RowNumber(t) && Half(u) == Half(t)
    ensures PlaceOf(u).row == PlaceOf(t).row && PlaceOf(u).lower == PlaceOf(t).lower
  {
    hide RowIn, Lower, Half, CoarseY, FineY;
    RowIsNat(u);
    RowIsNat(t);
    HalfIs(u);
    HalfIs(t);
    Back(RowIn(u));
    Back(RowIn(t));
    Back(Lower(u));
    Back(Lower(t));
  }

  lemma RowAt(q: Video, k: nat)
    requires DownFromT(q, k)
    ensures var t, row := q.ports.t, RowNumber(q.raster.latches.v);
            && var y := RowNumber(t) - 240 * Half(t);
               && (CoarseY(t) < 30 ==> row == (RowNumber(t) + k) % 480)
               && (CoarseY(t) >= 30 && y + k < 256 ==> row == RowNumber(t) + k)
               && (CoarseY(t) >= 30 && y + k >= 256 ==> row == (RowNumber(t) + k - 256) % 480)
  {
    hide PlaceOf, CoarseY, FineY, Half, DownBy;
    var p, t := PlaceOf(q.ports.t), q.ports.t;
    PlaceInPlane(t);
    PlaceNumbers(t);
    PlaceNumbers(q.raster.latches.v);
    if p.row < 240 {
      DownIs(p, k);
    } else {
      DownIsLow(p, k);
    }
  }

  /** Main result: with no access meanwhile, line `k` of a picture is drawn from the row that is
    `k` rows below T's; from an attribute row, the nametable ends at 256 first. */
  lemma LineOfPictureRow(v: Video, k: nat, d: nat)
    requires v.Valid() && v.Rendering() && v.line.scany == 0 && v.raster.dot == 0 && k < 240 && d <= 256
    requires RowNumber(v.raster.latches.v) == RowNumber(v.ports.t) && Half(v.raster.latches.v) == Half(v.ports.t)
    ensures var q, t := Ticks(v, 341 * k + d), v.ports.t;
            && q.line.scany == k && q.raster.dot == d
            && var row, y := RowNumber(q.raster.latches.v), RowNumber(t) - 240 * Half(t);
               && (CoarseY(t) < 30 ==> row == (RowNumber(t) + k) % 480)
               && (CoarseY(t) >= 30 && y + k < 256 ==> row == RowNumber(t) + k)
               && (CoarseY(t) >= 30 && y + k >= 256 ==> row == (RowNumber(t) + k - 256) % 480)
  {
    hide Ticks, PlaceOf, CoarseY, FineY, Half, Below;
    var n, p, u := 341 * k + d, PlaceOf(v.ports.t), v.raster.latches.v;
    RowsAgree(u, v.ports.t);
    assert DownBy(p, 0) == p;
    RowAlong(v, n);
    TicksMoveBeam(v, n);
    var q := Ticks(v, n);
    LineAndDot(n, q.line.scany, q.raster.dot);
    RowAt(q, k);
  }
}
