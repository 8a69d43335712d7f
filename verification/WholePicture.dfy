/** The picture on the screen is a window into the plane of nametables, at the place T names. */
module WholePicture {
  import opened PpuModel
  import opened Ticking
  import opened PrefetchTiles
  import opened FrameShown
  import opened LinesOnward
  import opened Scrolling
  import opened Plane
  import opened ScrolledPicture
  import opened PictureRows

  // -------------------------------------------------------------- many lines

  lemma TInPlane(t: bv16)
    ensures InPlane(PlaceOf(t))
  {
    hide PlaceOf;
    PlaceInPlane(t);
  }

  lemma BelowInPlane(p: Place)
    requires InPlane(p)
    ensures InPlane(Below(p)) && Below(p).col == p.col
  {
    hide Below, RowOf;
    BelowIsNext(p);
  }

  lemma {:induction false} DownInPlane(p: Place, n: nat)
    requires InPlane(p)
    ensures InPlane(DownBy(p, n)) && DownBy(p, n).col == p.col
  {
    hide Below;
    if n > 0 {
      DownInPlane(p, n - 1);
      BelowInPlane(DownBy(p, n - 1));
    }
  }

  /** The edge of the next line, when the edge of this one is in T's column. */
  lemma NextEdgeIs(v: Video, p: Place)
    requires AtLine(v, p) && p.col == Col(v.ports.t)
    ensures NextEdge(v) == Below(p)
  {
    hide Col, RowBelow, TableBelow, PlaneTile, Right;
  }

  /** Line `l` of `q` shows the plane `l` - `s` lines below `p`. */
  ghost predicate LineThere(v: Video, q: Video, p: Place, s: nat, l: nat)
    requires v.Valid() && q.Valid() && InPlane(p) && s <= l < 240
  {
    DownInPlane(p, l - s);
    LineShows(v, q, DownBy(p, l - s), l)
  }

  lemma LineStays(v: Video, a: Video, q: Video, p: Place, s: nat, l: nat, m: nat)
    requires v.Valid() && a.Valid() && q.Valid() && InPlane(p) && s <= l < 240 && m != l
    requires LineThere(v, a, p, s, l) && OtherLinesSame(a, q, m) && SameWorld(v, a) && SameWorld(v, q)
    ensures LineThere(v, q, p, s, l)
  {
    hide PixelEntry, DownBy;
    DownInPlane(p, l - s);
    var at := DownBy(p, l - s);
    forall x: nat | x < 256
      ensures CellShows(q, l, x, PixelEntry(v, at, l, x))
    {
      assert CellShows(a, l, x, PixelEntry(v, at, l, x));
    }
  }

  lemma LineComes(v: Video, a: Video, q: Video, p: Place, s: nat, l: nat)
    requires v.Valid() && a.Valid() && q.Valid() && InPlane(p) && s <= l < 240 && InPlane(DownBy(p, l - s))
    requires LineShows(a, q, DownBy(p, l - s), l) && SameWorld(v, a)
    ensures LineThere(v, q, p, s, l)
  {
    hide PixelEntry, DownBy, SameWorld;
    var at := DownBy(p, l - s);
    forall x: nat | x < 256
      ensures CellShows(q, l, x, PixelEntry(v, at, l, x))
    {
      assert CellShows(q, l, x, PixelEntry(a, at, l, x));
      SamePixel(v, a, at, l, x);
    }
  }

  /** Lines show the plane line below line. */
  lemma {:induction false} LinesArePlane(v: Video, p: Place, k: nat)
    requires AtLine(v, p) && p.col == Col(v.ports.t) && v.line.scany + k <= 240
    ensures var q, s := Ticks(v, 341 * k), v.line.scany;
            && AtLine(q, DownBy(p, k)) && q.line.scany == s + k && SameWorld(v, q) && q.frames == v.frames
            && forall l: nat | s <= l < s + k :: LineThere(v, q, p, s, l)
  {
    hide Ticks, LineShows, OtherLinesSame, LineThere, SameWorld, Col, Below, PlaneTile, RightOf, PlaceOf;
    if k == 0 {
      TicksZero(v, 0);
      SameSelf(v);
    } else {
      LinesArePlane(v, p, k - 1);
      var a, s := Ticks(v, 341 * (k - 1)), v.line.scany;
      LineStep(v, a, p, k - 1);
      TicksAdd(v, 341 * (k - 1), 341);
      var q := Ticks(v, 341 * k);
      forall l: nat | s <= l < s + k
        ensures LineThere(v, q, p, s, l)
      {
        if l < s + k - 1 {
          assert LineThere(v, a, p, s, l);
          LineStays(v, a, q, p, s, l, s + k - 1);
        }
      }
    }
  }

  lemma SameSelf(v: Video)
    ensures SameWorld(v, v)
  {
  }

  lemma LineStep(v: Video, a: Video, p: Place, k: nat)
    requires v.Valid() && InPlane(p) && p.col == Col(v.ports.t)
    requires AtLine(a, DownBy(p, k)) && SameWorld(v, a) && a.line.scany == v.line.scany + k < 240
    ensures var q := Ticks(a, 341);
            && AtLine(q, DownBy(p, k + 1)) && q.line.scany == a.line.scany + 1
            && SameWorld(v, q) && q.frames == a.frames
            && LineThere(v, q, p, v.line.scany, a.line.scany) && OtherLinesSame(a, q, a.line.scany)
  {
    hide Ticks, LineShows, OtherLinesSame, Col, Below, PlaneTile;
    DownInPlane(p, k);
    LineTurned(a);
    NextEdgeIs(a, DownBy(p, k));
    LineIsPlane(a, DownBy(p, k));
    LineComes(v, a, Ticks(a, 341), p, v.line.scany, a.line.scany);
  }

  // ------------------------------------------------------------- the whole picture

  /** The top of the picture, with T's row in V. */
  ghost predicate AtTop(v: Video) {
    && Positioned(v) && v.line.scany == 0
    && PlaceOf(v.raster.latches.v).row == PlaceOf(v.ports.t).row
    && PlaceOf(v.raster.latches.v).lower == PlaceOf(v.ports.t).lower
  }

  lemma FirstTurn(v: Video)
    requires AtTop(v)
    ensures var q := Ticks(v, 341);
            && AtLine(q, Below(PlaceOf(v.ports.t))) && q.line.scany == 1 && SameWorld(v, q) && q.frames == v.frames
  {
    hide Ticks, RowIn, Lower, Col, PlaneTile, RowBelow, TableBelow;
    LineTurned(v);
  }

  /** Line `l` shows the plane `l` lines below the place in T. */
  ghost predicate LineOfT(v: Video, q: Video, l: nat)
    requires v.Valid() && q.Valid() && l < 240
  {
    var p := PlaceOf(v.ports.t);
    PlaceInPlane(v.ports.t);
    DownInPlane(p, l);
    LineShows(v, q, DownBy(p, l), l)
  }

  /** All lines behind the first show T's part of the plane. */
  lemma LinesOfT(v: Video)
    requires v.Valid() && AtTop(v)
    ensures var q := Ticks(v, 341 * 240);
            && q.line.scany == 240 && q.raster.dot == 0 && SameWorld(v, q) && q.frames == v.frames
            && forall l: nat | 1 <= l < 240 :: LineOfT(v, q, l)
  {
    hide Ticks, AtTop, PlaceOf, Below, LineThere, LineOfT, SameWorld;
    var p := PlaceOf(v.ports.t);
    LinesBelowTop(v);
    var a, q := Ticks(v, 341), Ticks(v, 341 * 240);
    forall l: nat | 1 <= l < 240
      ensures LineOfT(v, q, l)
    {
      assert LineThere(a, q, Below(p), 1, l);
      LineIsOfT(v, a, q, l);
    }
  }

  lemma LinesBelowTop(v: Video)
    requires v.Valid() && AtTop(v)
    ensures var a, q, p := Ticks(v, 341), Ticks(v, 341 * 240), PlaceOf(v.ports.t);
            && q.line.scany == 240 && q.raster.dot == 0 && SameWorld(v, a) && SameWorld(v, q) && q.frames == v.frames
            && InPlane(Below(p)) && forall l: nat | 1 <= l < 240 :: LineThere(a, q, Below(p), 1, l)
  {
    hide Ticks, AtTop, PlaceOf, Below, LineThere, SameWorld, Col, InPlane, AtLine;
    var p := PlaceOf(v.ports.t);
    TInPlane(v.ports.t);
    BelowInPlane(p);
    FirstTurn(v);
    SamePorts(v, Ticks(v, 341));
    ColIs(v.ports.t);
    LinesOnFrom(Ticks(v, 341), Below(p));
    TicksAdd(v, 341, 341 * 239);
    TicksSameWorld(v, 341 * 240);
  }

  lemma LinesOnFrom(a: Video, p: Place)
    requires a.Valid() && InPlane(p) && AtLine(a, p) && p.col == Col(a.ports.t) && a.line.scany == 1
    ensures var q := Ticks(a, 341 * 239);
            && q.line.scany == 240 && q.raster.dot == 0 && q.frames == a.frames
            && forall l: nat | 1 <= l < 240 :: LineThere(a, q, p, 1, l)
  {
    hide Ticks, PlaceOf, Below, LineThere, SameWorld, Col, InPlane, PlaneTile, Holding, RightOf;
    LinesArePlane(a, p, 239);
  }

  lemma SamePorts(v: Video, a: Video)
    requires SameWorld(v, a)
    ensures a.ports == v.ports && a.board == v.board
  {
  }

  lemma ColIs(t: bv16)
    ensures PlaceOf(t).col == Col(t)
  {
    hide Col;
  }

  lemma LineIsOfT(v: Video, a: Video, q: Video, l: nat)
    requires v.Valid() && a.Valid() && q.Valid() && SameWorld(v, a) && 1 <= l < 240
    requires InPlane(Below(PlaceOf(v.ports.t))) && LineThere(a, q, Below(PlaceOf(v.ports.t)), 1, l)
    ensures LineOfT(v, q, l)
  {
    hide PlaceOf, Below, PixelEntry, CellShows, SameWorld;
    var p := PlaceOf(v.ports.t);
    PlaceInPlane(v.ports.t);
    DownInPlane(p, l);
    assert DownBy(p, 1) == Below(DownBy(p, 0));
    DownAdd(p, 1, l - 1);
    var at := DownBy(p, l);
    forall x: nat | x < 256
      ensures CellShows(q, l, x, PixelEntry(v, at, l, x))
    {
      assert CellShows(q, l, x, PixelEntry(a, at, l, x));
      SamePixel(v, a, at, l, x);
    }
  }

  // --------------------------------------------------------------- the hand-over

  /** Column `x` of screen line `l` of this picture. */
  ghost predicate PictureShows(v: Video, picture: seq<bv16>, l: nat, x: nat)
    requires v.Valid() && 8 <= l < 232 && x < 256
  {
    var p := PlaceOf(v.ports.t);
    PlaceInPlane(v.ports.t);
    DownInPlane(p, l);
    && |picture| == 57344
    && picture[(l - 8) * 256 + x] == v.board.rgb565(PixelEntry(v, DownBy(p, l), l, x))
  }

  lemma HandedOver(v: Video, q: Video)
    requires v.Valid() && q.Valid() && q.line.scany == 240 && q.raster.dot == 0 && SameWorld(v, q)
    requires v.board.pixelOutput && v.board.rgbaOutput
    requires forall l: nat | 1 <= l < 240 :: LineOfT(v, q, l)
    ensures var n := |q.frames|;
            && |Ticks(q, 343).frames| == n + 1 && Ticks(q, 343).frames[..n] == q.frames
            && forall l: nat, x: nat | 8 <= l < 232 && x < 256 :: PictureShows(v, Ticks(q, 343).frames[n], l, x)
  {
    hide Ticks, PixelEntry, PlaceOf;
    var e := Ticks(q, 343);
    PixelIsShown(q, 2048);
    forall l: nat, x: nat | 8 <= l < 232 && x < 256
      ensures PictureShows(v, e.frames[|q.frames|], l, x)
    {
      PixelIsShown(q, l * 256 + x);
      assert LineOfT(v, q, l);
      CellHandedOver(v, q, e.frames[|q.frames|], l, x);
    }
  }

  lemma CellHandedOver(v: Video, q: Video, picture: seq<bv16>, l: nat, x: nat)
    requires v.Valid() && q.Valid() && SameWorld(v, q) && v.board.pixelOutput && v.board.rgbaOutput
    requires 8 <= l < 232 && x < 256 && LineOfT(v, q, l)
    requires |picture| == 57344 && picture[l * 256 + x - 2048] == q.raster.colors[l * 256 + x]
    ensures PictureShows(v, picture, l, x)
  {
    hide PixelEntry, PlaceOf;
    var p := PlaceOf(v.ports.t);
    PlaceInPlane(v.ports.t);
    DownInPlane(p, l);
    assert CellShows(q, l, x, PixelEntry(v, DownBy(p, l), l, x));
    assert (l - 8) * 256 + x == l * 256 + x - 2048;
  }

  // ------------------------------------------------------------ the line before

  lemma PreDot(v: Video)
    requires v.Valid() && v.Rendering() && v.line.scany == 261
    ensures var q, u := Tick(v), v.raster.latches.v;
            && q.raster.latches.v == (if 280 <= v.raster.dot < 305 then Reloaded(u, v.ports.t) else u)
            && q.frames == v.frames && q.Rendering()
            && (if v.raster.dot < 340 then q.line.scany == 261 && q.raster.dot == v.raster.dot + 1
                else q.line.scany == 0 && q.raster.dot == 0)
  {
    hide Tick, Head, FrameEvents, VerticalReload, Mmc3Clock, Reloaded;
    TickIsHeadTail(v);
    LateHead(v);
    EventsKeep(v);
    PreReload(v);
    EventsKeepV(VerticalReload(Mmc3Clock(v)));
  }

  lemma PreReload(v: Video)
    requires v.Valid() && v.line.scany == 261
    ensures VerticalReload(Mmc3Clock(v)).raster.latches.v
         == if 280 <= v.raster.dot < 305 then Reloaded(v.raster.latches.v, v.ports.t) else v.raster.latches.v
  {
    hide Reloaded;
  }

  /** V holds T's row. */
  ghost predicate RowOfT(v: Video) {
    var p, q := PlaceOf(v.raster.latches.v), PlaceOf(v.ports.t);
    p.row == q.row && p.lower == q.lower
  }

  lemma ReloadIsRowOfT(u: bv16, t: bv16)
    requires u < 0x8000
    ensures Reloaded(u, t) < 0x8000 && RowIn(Reloaded(u, t)) == RowIn(t) && Lower(Reloaded(u, t)) == Lower(t)
  {
    ReloadLaw(u, t);
  }

  /** Along the line before the picture, V gets the row of T. */
  lemma {:induction false} ReloadRuns(v: Video, n: nat)
    requires v.Valid() && v.Rendering() && v.line.scany == 261 && v.raster.dot + n <= 340 && v.raster.latches.v < 0x8000
    ensures var q := Ticks(v, n);
            && q.line.scany == 261 && q.raster.dot == v.raster.dot + n && q.Rendering() && q.frames == v.frames
            && q.raster.latches.v < 0x8000 && q.ports == v.ports
            && (v.raster.dot < 305 && v.raster.dot + n > 280 && n > 0 ==> RowOfT(q))
  {
    hide Tick, Reloaded, RowIn, Lower, Col;
    if n > 0 {
      ReloadRuns(v, n - 1);
      var a := Ticks(v, n - 1);
      PreDot(a);
      TickSamePorts(a);
      ReloadIsRowOfT(a.raster.latches.v, a.ports.t);
    }
  }

  lemma TickSamePorts(v: Video)
    requires v.Valid()
    ensures Tick(v).ports == v.ports
  {
    hide Tick;
    TicksSameWorld(v, 1);
    OneStep(v);
  }

  /** The dots from here to the left edge of the picture. */
  function ToTop(v: Video): nat
    requires v.Valid()
  {
    341 - v.raster.dot
  }

  /** The line before the picture, with its reload or part of it still to come. */
  ghost predicate BeforePicture(v: Video) {
    && v.Valid() && v.Rendering() && v.line.scany == 261 && v.raster.dot < 305
    && v.raster.latches.v < 0x8000 && v.ports.t < 0x8000
  }

  lemma ComesToTop(v: Video)
    requires BeforePicture(v)
    ensures var q := Ticks(v, ToTop(v)); AtTop(q) && SameWorld(v, q) && q.frames == v.frames
  {
    hide Ticks, Tick, Reloaded, PlaceOf;
    var a := Ticks(v, 340 - v.raster.dot);
    ReloadRuns(v, 340 - v.raster.dot);
    PreDot(a);
    TickSamePorts(a);
    OneStep(a);
    TicksAdd(v, 340 - v.raster.dot, 1);
    TicksSameWorld(v, ToTop(v));
  }

  /** Main result: with rendering on and no access meanwhile, each pixel of the picture that is
    handed over next is the one of the plane that is as far right of and below the place in T. */
  lemma PictureIsPlane(v: Video)
    requires BeforePicture(v) && v.board.pixelOutput && v.board.rgbaOutput
    ensures var n, q := |v.frames|, Ticks(v, ToTop(v) + 341 * 240 + 343);
            && |q.frames| == n + 1 && q.frames[..n] == v.frames
            && forall l: nat, x: nat | 8 <= l < 232 && x < 256 :: PictureShows(v, q.frames[n], l, x)
  {
    hide Ticks, LineOfT, PictureShows, AtTop, SameWorld;
    ComesToTop(v);
    var a := Ticks(v, ToTop(v));
    LinesOfT(a);
    var b := Ticks(a, 341 * 240);
    SamePorts(v, a);
    HandedOver(a, b);
    TicksAdd(v, ToTop(v), 341 * 240);
    TicksAdd(v, ToTop(v) + 341 * 240, 343);
    forall l: nat, x: nat | 8 <= l < 232 && x < 256
      ensures PictureShows(v, Ticks(b, 343).frames[|v.frames|], l, x)
    {
      SamePicture(v, a, Ticks(b, 343).frames[|v.frames|], l, x);
    }
  }

  lemma SamePicture(v: Video, a: Video, picture: seq<bv16>, l: nat, x: nat)
    requires v.Valid() && a.Valid() && SameWorld(v, a) && 8 <= l < 232 && x < 256 && PictureShows(a, picture, l, x)
    ensures PictureShows(v, picture, l, x)
  {
    hide PixelEntry, PlaceOf, SameWorld;
    PlaceInPlane(v.ports.t);
    SamePorts(v, a);
    DownInPlane(PlaceOf(v.ports.t), l);
    SamePixel(v, a, DownBy(PlaceOf(v.ports.t), l), l, x);
  }

  // ----------------------------------------------------------- the first line

  lemma LateTickShifts(v: Video)
    requires v.Valid() && v.line.scany >= 240
    ensures Tick(v).raster.shifters == v.raster.shifters
  {
    hide Tick, Head, Reloaded;
    TickIsHeadTail(v);
    LateHead(v);
  }

  lemma {:induction false} LateShifters(v: Video, n: nat)
    requires v.Valid() && v.line.scany == 240 && v.raster.dot == 0 && n <= 7502
    ensures Ticks(v, n).raster.shifters == v.raster.shifters
  {
    hide Tick;
    if n > 0 {
      LateShifters(v, n - 1);
      TicksMoveBeam(v, n - 1);
      LateTickShifts(Ticks(v, n - 1));
    }
  }

  lemma LinesEnd(a: Video, p: Place)
    requires a.Valid() && InPlane(p) && AtLine(a, p) && p.col == Col(a.ports.t) && a.line.scany == 1
    ensures AtLine(Ticks(a, 341 * 239), DownBy(p, 239)) && Ticks(a, 341 * 239).line.scany == 240
  {
    hide Ticks, PlaceOf, Below, LineThere, SameWorld, Col, InPlane, PlaneTile, Holding, RightOf;
    LinesArePlane(a, p, 239);
  }

  /** What is prefetched on line 239 is still in the registers when the next picture begins: its
    first line begins with two tiles from 240 lines below T, and not with T's. */
  lemma FirstLineBeginsBelow(v: Video)
    requires v.Valid() && AtTop(v)
    ensures var q, p := Ticks(v, 89342), DownBy(PlaceOf(v.ports.t), 240);
            && q.line.scany == 0 && q.raster.dot == 0 && InPlane(p) && InPlane(RightOf(p))
            && q.raster.shifters == Holding(PlaneTile(v.AsScene(), p), PlaneTile(v.AsScene(), RightOf(p)))
  {
    hide Ticks, PlaceOf, Below, SameWorld, Col, PlaneTile, RightOf, AtTop, AtLine, InPlane;
    var a, b, p := Ticks(v, 341), Ticks(v, 81840), PlaceOf(v.ports.t);
    TInPlane(v.ports.t);
    BelowInPlane(p);
    FirstTurn(v);
    SamePorts(v, a);
    ColIs(v.ports.t);
    LinesEnd(a, Below(p));
    TicksAdd(v, 341, 341 * 239);
    DownOne(p);
    DownAdd(p, 1, 239);
    TicksSameWorld(v, 81840);
    EdgeIs(v, b, DownBy(p, 240));
    LateShifters(b, 7502);
    TicksAdd(v, 81840, 7502);
    TopBeam(v);
    TicksMoveBeam(v, 89342);
  }

  lemma TopBeam(v: Video)
    requires v.Valid() && AtTop(v)
    ensures Beam(v) == 0
  {
  }

  lemma EdgeIs(v: Video, b: Video, p: Place)
    requires v.Valid() && AtLine(b, p) && SameWorld(v, b)
    ensures InPlane(p) && InPlane(RightOf(p)) && b.raster.dot == 0
    ensures b.raster.shifters == Holding(PlaneTile(v.AsScene(), p), PlaneTile(v.AsScene(), RightOf(p)))
  {
    hide PlaceOf, PlaneTile, RightOf, Holding;
    SamePlane(v.AsScene(), b.AsScene(), p);
    SamePlane(v.AsScene(), b.AsScene(), RightOf(p));
  }
}
