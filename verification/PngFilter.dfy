/** The scanline filters of the PNG writer and the reference that undoes them (PNG
  specification, section 9.2).
 */
module PngFilter {
  import opened Options
  import opened Bits
  import opened Inflate
  import opened Deflate

  // -------------------------------------------------------------- the standard

  function Distance(p: int, x: int): nat { if p < x then x - p else p - x }

  function Gradient(a: int, b: int, c: int): int { a + b - c }

  /** The Paeth predictor: the neighbour closest to a + b - c, in the order a, b, c. */
  function Paeth(a: Byte, b: Byte, c: Byte): (r: Byte)
    ensures r == a || r == b || r == c
    ensures var p := Gradient(a, b, c);
            Distance(p, r) <= Distance(p, a) && Distance(p, r) <= Distance(p, b) && Distance(p, r) <= Distance(p, c)
  {
    var p := Gradient(a, b, c);
    if Distance(p, a) <= Distance(p, b) && Distance(p, a) <= Distance(p, c) then a
    else if Distance(p, b) <= Distance(p, c) then b
    else c
  }

  type Filter = f: nat | f < 5

  /** What filter `f` predicts from the bytes to the left, above, and above left. */
  function Predict(f: Filter, a: Byte, b: Byte, c: Byte): Byte {
    if f == 0 then 0
    else if f == 1 then a
    else if f == 2 then b
    else if f == 3 then ((a as int + b) / 2)
    else Paeth(a, b, c)
  }

  /** Undo a filter on the first `k` bytes of a scanline: `prior` is the row above, `n` the
    size of a pixel, and what is left of the row or above the image counts as zero. */
  function Undo(f: Filter, line: seq<Byte>, prior: seq<Byte>, n: nat, k: nat): (row: seq<Byte>)
    requires k <= |line| == |prior| && n > 0
    ensures |row| == k
  {
    if k == 0 then [] else
      var row := Undo(f, line, prior, n, k - 1);
      var i := k - 1;
      var a := if i < n then 0 else row[i - n];
      var c := if i < n then 0 else prior[i - n];
      row + [(line[i] as int + Predict(f, a, prior[i], c)) % 256]
  }

  /** The first `rows` scanlines of `len` bytes behind their filter bytes. */
  function Unfilter(filt: seq<Byte>, len: nat, n: nat, rows: nat): (image: Option<seq<seq<Byte>>>)
    requires n > 0
    ensures image.Some? ==> |image.value| == rows && forall r | 0 <= r < rows :: |image.value[r]| == len
  {
    if rows == 0 then Some([])
    else if |filt| < rows * (len + 1) then None
    else
      var start := (rows - 1) * (len + 1);
      RowFits(len, rows - 1, rows);
      var above := Unfilter(filt, len, n, rows - 1);
      if above.None? || filt[start] >= 5 then None
      else
        var prior := if rows == 1 then seq(len, _ => 0) else above.value[rows - 2];
        Some(above.value + [Undo(filt[start], filt[start + 1..start + 1 + len], prior, n, len)])
  }

  // ------------------------------------------------------------- the image

  /** What the writer is given: memory, stride, size in pixels, bytes per pixel, and whether
    rows are written from the last to the first. */
  datatype Image = Image(pixels: seq<Byte>, stride: nat, width: nat, height: nat, n: nat, flip: bool)
  {
    function Len(): nat { width * n }

    predicate Valid() {
      n > 0 && width > 0 && (height > 0 ==> stride * (height - 1) + width * n <= |pixels|)
    }

    function Base(y: nat): nat
      requires y < height
    {
      stride * (if flip then height - 1 - y else y)
    }

    lemma InMemory(y: nat)
      requires Valid() && y < height
      ensures Base(y) + Len() <= |pixels|
    {
      assert stride * (if flip then height - 1 - y else y) <= stride * (height - 1);
    }

    /** `signed_stride`: from the row above to this one. */
    function Step(): int { if flip then -(stride as int) else stride }

    lemma StepsBack(y: nat)
      requires 0 < y < height
      ensures Base(y) - Step() == Base(y - 1)
    {
    }

    /** Scanline `y` in the order of writing. */
    function Row(y: nat): (row: seq<Byte>)
      requires Valid() && y < height
      ensures |row| == Len()
    {
      InMemory(y);
      pixels[Base(y)..Base(y) + Len()]
    }

    function Prior(y: nat): (row: seq<Byte>)
      requires Valid() && y < height
      ensures |row| == Len()
    {
      if y == 0 then seq(Len(), _ => 0) else Row(y - 1)
    }

    function Rows(k: nat): (rows: seq<seq<Byte>>)
      requires Valid() && k <= height
      ensures |rows| == k
    {
      if k == 0 then [] else Rows(k - 1) + [Row(k - 1)]
    }
  }

  /** A row filtered: every byte less its prediction, modulo 256. */
  function FilteredByte(f: Filter, row: seq<Byte>, prior: seq<Byte>, n: nat, i: nat): Byte
    requires i < |row| == |prior| && n > 0
  {
    var a := if i < n then 0 else row[i - n];
    var c := if i < n then 0 else prior[i - n];
    (row[i] as int - Predict(f, a, prior[i], c)) % 256
  }

  function FilteredRow(f: Filter, row: seq<Byte>, prior: seq<Byte>, n: nat): (line: seq<Byte>)
    requires |row| == |prior| && n > 0
    ensures |line| == |row|
  {
    seq(|row|, i requires 0 <= i < |row| => FilteredByte(f, row, prior, n, i))
  }

  lemma TakeAway(x: Byte, p: Byte)
    ensures (((x as int - p) % 256) + p) % 256 == x
  {
  }

  /** Undoing a filter restores the row, whichever filter it was. */
  lemma {:induction false} UndoFiltered(f: Filter, row: seq<Byte>, prior: seq<Byte>, n: nat, k: nat)
    requires k <= |row| == |prior| && n > 0
    ensures Undo(f, FilteredRow(f, row, prior, n), prior, n, k) == row[..k]
  {
    hide Predict;
    if k > 0 {
      UndoFiltered(f, row, prior, n, k - 1);
      var i := k - 1;
      var a := if i < n then 0 else row[i - n];
      var c := if i < n then 0 else prior[i - n];
      assert FilteredRow(f, row, prior, n)[i] == FilteredByte(f, row, prior, n, i);
      TakeAway(row[i], Predict(f, a, prior[i], c));
    }
  }

  // -------------------------------------------------------------- the writer

  const MAPPING: seq<nat> := [0, 1, 2, 3, 4]
  const FIRSTMAP: seq<nat> := [0, 1, 0, 5, 6]

  /** The switch of the first loop. */
  function FirstPixel(kind: nat, z: Byte, up: Byte): Byte {
    var p := if kind == 2 then up else if kind == 3 then up / 2 else if kind == 4 then Paeth(0, up, 0) else 0;
    (z as int - p) % 256
  }

  /** The switch over the later loops. */
  function LaterPixel(kind: nat, z: Byte, left: Byte, up: Byte, corner: Byte): Byte {
    var p := if kind == 1 then left
             else if kind == 2 then up
             else if kind == 3 then (left as int + up) / 2
             else if kind == 4 then Paeth(left, up, corner)
             else if kind == 5 then left / 2
             else Paeth(left, 0, 0);
    (z as int - p) % 256
  }

  /** Does this kind look at the row above? */
  predicate Looks(kind: nat) { 2 <= kind <= 4 }

  /** The copy that filter 0 makes of a row. */
  method CopyLine(img: Image, y: nat, filter: Filter, line: array<Byte>)
    requires img.Valid() && y < img.height && line.Length == img.Len()
    requires (if y != 0 then MAPPING[filter] else FIRSTMAP[filter]) == 0
    modifies line
    ensures line[..] == FilteredRow(filter, img.Row(y), img.Prior(y), img.n)
  {
    hide Paeth, FirstPixel, LaterPixel, FilteredByte;
    FitsPixel(img);
    img.InMemory(y);
    ghost var row, prior := img.Row(y), img.Prior(y);
    for i := 0 to img.Len()
      invariant forall k | 0 <= k < i :: line[k] == FilteredByte(filter, row, prior, img.n, k)
    {
      CopyFilters(filter, row, prior, img.n, i, y == 0);
      line[i] := img.pixels[img.Base(y) + i];
    }
  }

  /** `stbiw__encode_png_line`: kinds 5 and 6 are filters 3 and 4 with no row above. */
  method EncodeLine(img: Image, y: nat, filter: Filter, line: array<Byte>)
    requires img.Valid() && y < img.height && line.Length == img.Len()
    modifies line
    ensures line[..] == FilteredRow(filter, img.Row(y), img.Prior(y), img.n)
  {
    hide Paeth, FirstPixel, LaterPixel, FilteredByte;
    var n, len := img.n, img.Len();
    FitsPixel(img);
    img.InMemory(y);
    var kind := if y != 0 then MAPPING[filter] else FIRSTMAP[filter];
    var z := img.Base(y);
    var step := img.Step();
    ghost var row, prior := img.Row(y), img.Prior(y);
    if y > 0 {
      img.InMemory(y - 1);
      img.StepsBack(y);
    }
    if kind == 0 {
      CopyLine(img, y, filter, line);
      return;
    }
    for i := 0 to n
      invariant forall k | 0 <= k < i :: line[k] == FilteredByte(filter, row, prior, n, k)
    {
      FirstPixelFilters(filter, row, prior, n, i, y == 0);
      line[i] := FirstPixel(kind, img.pixels[z + i], if Looks(kind) then img.pixels[z - step + i] else 0);
    }
    for i := n to len
      invariant forall k | 0 <= k < i :: line[k] == FilteredByte(filter, row, prior, n, k)
    {
      LaterPixelFilters(filter, row, prior, n, i, y == 0);
      line[i] := LaterPixel(kind, img.pixels[z + i], img.pixels[z + i - n],
                            if Looks(kind) then img.pixels[z - step + i] else 0,
                            if Looks(kind) then img.pixels[z - step + i - n] else 0);
    }
  }

  lemma FitsPixel(img: Image)
    requires img.Valid()
    ensures img.n <= img.Len()
  {
    assert img.width * img.n >= 1 * img.n;
  }

  lemma CopyFilters(filter: Filter, row: seq<Byte>, prior: seq<Byte>, n: nat, i: nat, first: bool)
    requires 0 < n && i < |row| == |prior| && (if first then FIRSTMAP[filter] else MAPPING[filter]) == 0
    requires first ==> prior[i] == 0
    ensures FilteredByte(filter, row, prior, n, i) == row[i]
  {
  }

  lemma FirstPixelFilters(filter: Filter, row: seq<Byte>, prior: seq<Byte>, n: nat, i: nat, first: bool)
    requires i < n <= |row| == |prior|
    requires first ==> prior[i] == 0
    ensures var kind := if first then FIRSTMAP[filter] else MAPPING[filter];
            FirstPixel(kind, row[i], if Looks(kind) then prior[i] else 0) == FilteredByte(filter, row, prior, n, i)
  {
    hide Paeth;
  }

  lemma LaterPixelFilters(filter: Filter, row: seq<Byte>, prior: seq<Byte>, n: nat, i: nat, first: bool)
    requires 0 < n <= i < |row| == |prior|
    requires first ==> prior[i] == 0 && prior[i - n] == 0
    ensures var kind := if first then FIRSTMAP[filter] else MAPPING[filter];
            kind != 0 ==>
            LaterPixel(kind, row[i], row[i - n],
                       if Looks(kind) then prior[i] else 0, if Looks(kind) then prior[i - n] else 0)
            == FilteredByte(filter, row, prior, n, i)
  {
    hide Paeth;
  }

  // ---------------------------------------------------------- choosing filters

  function Magnitude(b: Byte): nat { if b < 128 then b else 256 - b }

  /** Sum of the magnitudes of the bytes read as signed. */
  function Cost(line: seq<Byte>): nat {
    if line == [] then 0 else Cost(line[..|line| - 1]) + Magnitude(line[|line| - 1])
  }

  method Estimate(line: array<Byte>) returns (est: nat)
    ensures est == Cost(line[..])
  {
    est := 0;
    for i := 0 to line.Length
      invariant est == Cost(line[..i])
    {
      assert line[..i + 1][..i] == line[..i];
      est := est + Magnitude(line[i]);
    }
    assert line[..line.Length] == line[..];
  }

  const INT_MAX := 0x7fffffff

  function CostOf(img: Image, y: nat, f: Filter): nat
    requires img.Valid() && y < img.height
  {
    Cost(FilteredRow(f, img.Row(y), img.Prior(y), img.n))
  }

  /** The first of the cheapest filters below `k`, or 0 when none is below the largest int. */
  ghost predicate Cheapest(img: Image, y: nat, k: nat, best: Filter, value: nat)
    requires img.Valid() && y < img.height && k <= 5
  {
    && (forall f: Filter | f < k :: value <= CostOf(img, y, f) && (f < best ==> value < CostOf(img, y, f)))
    && (if best < k && CostOf(img, y, best) < INT_MAX then value == CostOf(img, y, best)
        else best == 0 && value == INT_MAX)
  }

  /** Try all five filters. */
  method BestFilter(img: Image, y: nat, line: array<Byte>) returns (best: Filter, ghost value: nat)
    requires img.Valid() && y < img.height && line.Length == img.Len()
    modifies line
    ensures Cheapest(img, y, 5, best, value)
  {
    hide CostOf, FilteredRow, Cost;
    var bestVal: nat := INT_MAX;
    best := 0;
    for f := 0 to 5
      invariant Cheapest(img, y, f, best, bestVal)
    {
      EncodeLine(img, y, f, line);
      var est := Estimate(line);
      CostIs(img, y, f, line[..]);
      if est < bestVal {
        bestVal, best := est, f;
      }
    }
    value := bestVal;
  }

  lemma CostIs(img: Image, y: nat, f: Filter, line: seq<Byte>)
    requires img.Valid() && y < img.height && line == FilteredRow(f, img.Row(y), img.Prior(y), img.n)
    ensures Cost(line) == CostOf(img, y, f)
  {
  }

  /** The filter of row `y`: the forced one, or the first of the cheapest. */
  ghost predicate Picked(img: Image, y: nat, force: int, f: Byte)
    requires img.Valid() && y < img.height
  {
    if 0 <= force < 5 then f == force else f < 5 && exists value :: Cheapest(img, y, 5, f, value)
  }

  /** A forced filter of 5 and more means none, like a negative one. */
  method FilterLine(img: Image, y: nat, force: int, line: array<Byte>) returns (filter: Filter)
    requires img.Valid() && y < img.height && line.Length == img.Len()
    modifies line
    ensures line[..] == FilteredRow(filter, img.Row(y), img.Prior(y), img.n)
    ensures Picked(img, y, force, filter)
  {
    hide FilteredRow, Cheapest;
    if 0 <= force < 5 {
      filter := force;
    } else {
      ghost var value;
      filter, value := BestFilter(img, y, line);
    }
    EncodeLine(img, y, filter, line);
  }

  // -------------------------------------------------------------- the whole image

  /** The last row depends on its own bytes and the rows above. */
  lemma UnfilterSame(a: seq<Byte>, b: seq<Byte>, len: nat, n: nat, rows: nat, start: nat, end: nat)
    requires n > 0 && rows > 0 && start == (rows - 1) * (len + 1) && end == rows * (len + 1) == start + 1 + len
    requires |a| == |b| && end <= |a| && a[start..end] == b[start..end]
    requires Unfilter(a, len, n, rows - 1) == Unfilter(b, len, n, rows - 1)
    ensures Unfilter(a, len, n, rows) == Unfilter(b, len, n, rows)
  {
    hide Undo;
    assert a[start] == a[start..end][0] == b[start..end][0] == b[start];
    assert a[start + 1..end] == a[start..end][1..] == b[start..end][1..] == b[start + 1..end];
  }

  lemma SameParts<T>(a: seq<T>, b: seq<T>, start: nat, end: nat)
    requires start <= end <= |a| && end <= |b| && a[..end] == b[..end]
    ensures a[..start] == b[..start] && a[start..end] == b[start..end]
  {
    assert a[..end][..start] == a[..start] && b[..end][..start] == b[..start];
    assert a[..end][start..end] == a[start..end] && b[..end][start..end] == b[start..end];
  }

  /** Later bytes do not matter to earlier rows. */
  lemma {:induction false} UnfilterFrame(a: seq<Byte>, b: seq<Byte>, len: nat, n: nat, rows: nat)
    requires n > 0 && |a| == |b| && rows * (len + 1) <= |a| && a[..rows * (len + 1)] == b[..rows * (len + 1)]
    ensures Unfilter(a, len, n, rows) == Unfilter(b, len, n, rows)
  {
    hide Unfilter;
    if rows == 0 {
      UnfilterNone(a, len, n);
      UnfilterNone(b, len, n);
    } else {
      var start, end := (rows - 1) * (len + 1), rows * (len + 1);
      RowFits(len, rows - 1, rows);
      SameParts(a, b, start, end);
      UnfilterFrame(a, b, len, n, rows - 1);
      UnfilterSame(a, b, len, n, rows, start, end);
    }
  }

  lemma UnfilterOne(filt: seq<Byte>, len: nat, n: nat, y: nat, above: seq<seq<Byte>>, start: nat)
    requires n > 0 && start == y * (len + 1) && |filt| >= (y + 1) * (len + 1) == start + 1 + len
    requires Unfilter(filt, len, n, y) == Some(above) && filt[start] < 5
    ensures |above| == y
    ensures Unfilter(filt, len, n, y + 1) == Some(above +
      [Undo(filt[start], filt[start + 1..start + 1 + len], if y == 0 then seq(len, _ => 0) else above[y - 1], n, len)])
  {
    hide Undo;
  }

  /** One more filtered row unfilters to one more row of the image. */
  lemma UnfilterRow(img: Image, filt: seq<Byte>, y: nat, f: Filter, start: nat)
    requires img.Valid() && y < img.height && start == y * (img.Len() + 1)
    requires |filt| >= (y + 1) * (img.Len() + 1) == start + 1 + img.Len()
    requires Unfilter(filt, img.Len(), img.n, y) == Some(img.Rows(y))
    requires filt[start] == f
    requires filt[start + 1..start + 1 + img.Len()] == FilteredRow(f, img.Row(y), img.Prior(y), img.n)
    ensures Unfilter(filt, img.Len(), img.n, y + 1) == Some(img.Rows(y + 1))
  {
    hide Undo, FilteredRow, Image.Row, Unfilter;
    UndoFiltered(f, img.Row(y), img.Prior(y), img.n, img.Len());
    UnfilterOne(filt, img.Len(), img.n, y, img.Rows(y), start);
    assert img.Row(y)[..img.Len()] == img.Row(y);
  }

  function RowStart(len: nat, y: nat): nat { y * (len + 1) }

  /** The bytes before the first rows name the filters picked for them. */
  ghost predicate AllPicked(img: Image, force: int, filt: seq<Byte>, rows: nat)
    requires img.Valid() && rows <= img.height
  {
    if rows == 0 then true
    else
      var start := RowStart(img.Len(), rows - 1);
      AllPicked(img, force, filt, rows - 1) && start < |filt| && Picked(img, rows - 1, force, filt[start])
  }

  lemma {:induction false} PickedFrame(img: Image, force: int, a: seq<Byte>, b: seq<Byte>, rows: nat)
    requires img.Valid() && rows <= img.height && AllPicked(img, force, a, rows) && |a| == |b|
    requires rows * (img.Len() + 1) <= |a| && a[..rows * (img.Len() + 1)] == b[..rows * (img.Len() + 1)]
    ensures AllPicked(img, force, b, rows)
  {
    hide Picked;
    if rows > 0 {
      var start, end := (rows - 1) * (img.Len() + 1), rows * (img.Len() + 1);
      RowFits(img.Len(), rows - 1, rows);
      SameParts(a, b, start, end);
      PickedFrame(img, force, a, b, rows - 1);
      assert a[start] == a[start..end][0] == b[start..end][0] == b[start];
    }
  }

  lemma PickedOne(img: Image, force: int, filt: seq<Byte>, y: nat, start: nat)
    requires img.Valid() && y < img.height && AllPicked(img, force, filt, y)
    requires start == y * (img.Len() + 1) < |filt| && Picked(img, y, force, filt[start])
    ensures AllPicked(img, force, filt, y + 1)
  {
    hide Picked;
  }

  /** The filter loop of `stbi_write_png_to_mem`. */
  method FilterImage(img: Image, force: int) returns (filt: array<Byte>)
    requires img.Valid()
    ensures fresh(filt) && filt.Length == img.height * (img.Len() + 1)
    ensures Unfilter(filt[..], img.Len(), img.n, img.height) == Some(img.Rows(img.height))
    ensures AllPicked(img, force, filt[..], img.height)
  {
    hide FilteredRow, Unfilter, AllPicked, Picked;
    var len := img.Len();
    filt := new Byte[img.height * (len + 1)];
    var line := new Byte[len];
    UnfilterNone(filt[..], len, img.n);
    NonePicked(img, force, filt[..]);
    for j := 0 to img.height
      invariant Unfilter(filt[..], len, img.n, j) == Some(img.Rows(j)) && AllPicked(img, force, filt[..], j)
    {
      var filter := FilterLine(img, j, force, line);
      ghost var before := filt[..];
      RowFits(len, j, img.height);
      filt[j * (len + 1)] := filter;
      CopyInto(filt, j * (len + 1) + 1, line);
      UnfilterFrame(before, filt[..], len, img.n, j);
      UnfilterRow(img, filt[..], j, filter, j * (len + 1));
      PickedFrame(img, force, before, filt[..], j);
      PickedOne(img, force, filt[..], j, j * (len + 1));
    }
  }

  lemma UnfilterNone(filt: seq<Byte>, len: nat, n: nat)
    requires n > 0
    ensures Unfilter(filt, len, n, 0) == Some([])
  {
  }

  lemma NonePicked(img: Image, force: int, filt: seq<Byte>)
    requires img.Valid()
    ensures AllPicked(img, force, filt, 0)
  {
  }

  lemma RowFits(len: nat, j: nat, height: nat)
    requires j < height
    ensures j * (len + 1) + 1 + len == (j + 1) * (len + 1) <= height * (len + 1)
  {
  }

  method CopyInto(dst: array<Byte>, at: nat, src: array<Byte>)
    requires dst != src && at + src.Length <= dst.Length
    modifies dst
    ensures dst[..] == old(dst[..at]) + src[..] + old(dst[at + src.Length..])
  {
    for i := 0 to src.Length
      invariant dst[..] == old(dst[..at]) + src[..i] + old(dst[at + i..])
    {
      dst[at + i] := src[i];
    }
  }

  /** Byte `i` of row `y` is the one in memory: row `y` begins `y` strides from the start, or
    when the picture is flipped, as many strides before the start of the last row. */
  ghost predicate ShowsByte(img: Image, rows: seq<seq<Byte>>, y: nat, i: nat)
    requires y < img.height && y < |rows|
  {
    var at := img.stride * (if img.flip then img.height - 1 - y else y) + i;
    |rows[y]| == img.width * img.n && i < |rows[y]| && at < |img.pixels| && rows[y][i] == img.pixels[at]
  }

  /** The rows are the picture in memory. */
  ghost predicate Shows(img: Image, rows: seq<seq<Byte>>) {
    |rows| == img.height
    && forall y: nat, i: nat | y < img.height && i < img.width * img.n :: ShowsByte(img, rows, y, i)
  }

  lemma {:induction false} RowsAt(img: Image, k: nat, y: nat)
    requires img.Valid() && y < k <= img.height
    ensures img.Rows(k)[y] == img.Row(y)
  {
    hide Image.Row;
    if y < k - 1 { RowsAt(img, k - 1, y); }
  }

  lemma RowsShow(img: Image)
    requires img.Valid()
    ensures Shows(img, img.Rows(img.height))
  {
    hide Image.Rows, Image.Row, ShowsByte;
    forall y: nat, i: nat | y < img.height && i < img.width * img.n
      ensures ShowsByte(img, img.Rows(img.height), y, i)
    {
      RowsAt(img, img.height, y);
      RowShows(img, img.Rows(img.height), y, i);
    }
  }

  lemma RowShows(img: Image, rows: seq<seq<Byte>>, y: nat, i: nat)
    requires img.Valid() && y < img.height && y < |rows| && rows[y] == img.Row(y) && i < img.width * img.n
    ensures ShowsByte(img, rows, y, i)
  {
    img.InMemory(y);
  }

  lemma HasRows(len: nat, height: nat)
    ensures height > 0 <==> height * (len + 1) > 0
  {
  }

  /** The scanline part of a PNG file: inflating it and undoing the filters gives the rows of
    the image back, for every stride, pixel size, order of rows, forced or chosen filters,
    and compression level, if and only if there are any rows. */
  method ImageData(img0: Image, force: int, level: int) returns (z: seq<Byte>, img: Image)
    requires img0.n > 0 && img0.width > 0
    requires img0.(stride := if img0.stride == 0 then img0.width * img0.n else img0.stride).Valid()
    ensures img == img0.(stride := if img0.stride == 0 then img0.width * img0.n else img0.stride)
    ensures img.height > 0 <==> Unzlib(z).Some?
    ensures img.height > 0 ==>
              var rows := Unfilter(Unzlib(z).value, img.Len(), img.n, img.height); rows.Some? && Shows(img, rows.value)
    ensures img.height > 0 ==> AllPicked(img, force, Unzlib(z).value, img.height)
  {
    hide Unfilter, Unzlib, Image.Rows, Shows, AllPicked;
    img := if img0.stride == 0 then img0.(stride := img0.width * img0.n) else img0;
    var filt := FilterImage(img, force);
    z := Compress(filt[..], level);
    HasRows(img.Len(), img.height);
    RowsShow(img);
    if img.height == 0 {
      assert filt[..] == [];
    }
  }
}
