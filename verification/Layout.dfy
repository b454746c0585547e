/**
 The compositor's geometry: where each user's region lies on the canvas for the flat and
 spotlight layouts, and where a picture lies inside its region. All cuts are rounded down to even
 coordinates, as chroma planes need.
 */
module Layout {
  import opened Arith

  datatype Region = Region(uid: string, x: int, y: int, width: int, height: int, z: int)

  predicate Contains(r: Region, px: int, py: int) {
    r.x <= px < r.x + r.width && r.y <= py < r.y + r.height
  }

  predicate EvenRegion(r: Region) {
    r.x % 2 == 0 && r.y % 2 == 0 && r.width % 2 == 0 && r.height % 2 == 0
  }

  predicate Inside(r: Region, width: int, height: int) {
    0 <= r.x && 0 <= r.y && 0 <= r.width && 0 <= r.height && r.x + r.width <= width && r.y + r.height <= height
  }

  predicate Canvas(width: int, height: int) {
    width >= 2 && height >= 2 && width % 2 == 0 && height % 2 == 0
  }

  // ----- cutting a length into n even parts -----

  /** n & ~1 for a non-negative n. */
  function Even(n: int): int { n - n % 2 }

  /** The c-th of the cuts that divide `total` into n parts. */
  function Cut(c: int, total: int, n: int): int
    requires n >= 1
  {
    Even(c * total / n)
  }

  lemma CutEnds(total: int, n: int)
    requires n >= 1 && total >= 0 && total % 2 == 0
    ensures Cut(0, total, n) == 0 && Cut(n, total, n) == total
  {
    assert 0 * total == 0;
    DivExact(0, n, 0);
    DivExact(total, n, n * total);
  }

  lemma CutOrder(c: int, d: int, total: int, n: int)
    requires n >= 1 && total >= 0 && c <= d
    ensures Cut(c, total, n) <= Cut(d, total, n)
    ensures Cut(c, total, n) % 2 == 0 && Cut(d, total, n) % 2 == 0
  {
    MulMono(c, d, total);
    DivMono(c * total, d * total, n);
    EvenMono(c * total / n, d * total / n);
    hide Even;
  }

  lemma EvenMono(a: int, b: int)
    requires a <= b
    ensures Even(a) <= Even(b) && Even(a) % 2 == 0 && Even(b) % 2 == 0
  {
  }

  lemma CutRange(c: int, total: int, n: int)
    requires n >= 1 && total >= 0 && total % 2 == 0 && 0 <= c <= n
    ensures 0 <= Cut(c, total, n) <= total && Cut(c, total, n) % 2 == 0
  {
    CutEnds(total, n);
    CutOrder(0, c, total, n);
    CutOrder(c, n, total, n);
  }

  /** p lies in the c-th part. */
  predicate InPart(p: int, c: int, total: int, n: int)
    requires n >= 1
  {
    Cut(c, total, n) <= p < Cut(c + 1, total, n)
  }

  /** Every point lies in some part. */
  lemma {:induction false} FindPart(p: int, total: int, n: int, upto: nat) returns (c: int)
    requires n >= 1 && total >= 0 && total % 2 == 0 && 0 <= p < Cut(upto, total, n)
    ensures 0 <= c < upto && InPart(p, c, total, n)
    decreases upto
  {
    hide Cut;
    CutEnds(total, n);
    if p >= Cut(upto - 1, total, n) {
      c := upto - 1;
    } else {
      c := FindPart(p, total, n, upto - 1);
    }
  }

  /** ... and in only one. */
  lemma PartUnique(p: int, c: int, d: int, total: int, n: int)
    requires n >= 1 && total >= 0 && InPart(p, c, total, n) && InPart(p, d, total, n)
    ensures c == d
  {
    hide Cut;
    if c < d { CutOrder(c + 1, d, total, n); }
    if d < c { CutOrder(d + 1, c, total, n); }
  }

  /** A cut is even and less than two below its exact place. */
  lemma CutNearest(c: int, total: int, n: int)
    requires n >= 1 && c >= 0 && total >= 0
    ensures Cut(c, total, n) % 2 == 0 && 0 <= c * total - Cut(c, total, n) * n < 2 * n
  {
    MulMono(0, c, total);
    EvenQuotient(c * total, n);
  }

  // ----- the flat grid -----

  /** The grid has room for n users and no empty row. */
  predicate GridFits(cols: int, rows: int, n: int) {
    cols >= 1 && rows >= 1 && cols * (rows - 1) < n <= cols * rows
  }

  function GridRegion(uid: string, i: int, cols: int, rows: int, width: int, height: int): Region
    requires cols >= 1 && rows >= 1
  {
    var col, row := i % cols, i / cols;
    var left, top := Cut(col, width, cols), Cut(row, height, rows);
    Region(uid, left, top, Cut(col + 1, width, cols) - left, Cut(row + 1, height, rows) - top, 0)
  }

  /** The corners of a user's region, in rows of `cols` users from the top left. */
  lemma GridRegionAt(uid: string, i: nat, cols: int, rows: int, width: int, height: int)
    requires cols >= 1 && rows >= 1 && width >= 0 && height >= 0
    ensures var r := GridRegion(uid, i, cols, rows, width, height);
      var right, bottom := r.x + r.width, r.y + r.height;
      && r.uid == uid && r.z == 0
      && 0 <= i % cols * width - r.x * cols < 2 * cols && 0 <= (i % cols + 1) * width - right * cols < 2 * cols
      && 0 <= i / cols * height - r.y * rows < 2 * rows && 0 <= (i / cols + 1) * height - bottom * rows < 2 * rows
      && r.x % 2 == 0 && r.y % 2 == 0 && right % 2 == 0 && bottom % 2 == 0
  {
    hide Cut;
    DivBounds(i, cols);
    CutNearest(i % cols, width, cols);
    CutNearest(i % cols + 1, width, cols);
    CutNearest(i / cols, height, rows);
    CutNearest(i / cols + 1, height, rows);
  }

  lemma RowInGrid(i: int, cols: int, rows: int, n: int)
    requires GridFits(cols, rows, n) && 0 <= i < n
    ensures 0 <= i % cols < cols && 0 <= i / cols < rows
  {
    DivBounds(i, cols);
    DivAtMost(i, cols, rows - 1);
  }

  /** Every region is even and lies inside the canvas. */
  lemma GridRegionOk(uid: string, i: int, cols: int, rows: int, n: int, width: int, height: int)
    requires GridFits(cols, rows, n) && 0 <= i < n && Canvas(width, height)
    ensures var r := GridRegion(uid, i, cols, rows, width, height);
      EvenRegion(r) && Inside(r, width, height)
  {
    hide Cut;
    RowInGrid(i, cols, rows, n);
    var col, row := i % cols, i / cols;
    CutRange(col, width, cols);
    CutRange(col + 1, width, cols);
    CutRange(row, height, rows);
    CutRange(row + 1, height, rows);
    CutOrder(col, col + 1, width, cols);
    CutOrder(row, row + 1, height, rows);
  }

  /** The cell of a canvas point. */
  lemma PointCell(px: int, py: int, cols: int, rows: int, width: int, height: int) returns (c: int, r: int)
    requires cols >= 1 && rows >= 1 && Canvas(width, height) && 0 <= px < width && 0 <= py < height
    ensures 0 <= c < cols && 0 <= r < rows && InPart(px, c, width, cols) && InPart(py, r, height, rows)
  {
    CutEnds(width, cols);
    CutEnds(height, rows);
    c := FindPart(px, width, cols, cols);
    r := FindPart(py, height, rows, rows);
  }

  /** Exactly the region of its cell contains a point: regions are disjoint and leave no gap. */
  lemma GridCovers(px: int, py: int, c: int, r: int, i: int, uid: string, cols: int, rows: int,
                  n: int, width: int, height: int)
    requires GridFits(cols, rows, n) && 0 <= i < n && Canvas(width, height)
    requires 0 <= c < cols && 0 <= r < rows && InPart(px, c, width, cols) && InPart(py, r, height, rows)
    ensures Contains(GridRegion(uid, i, cols, rows, width, height), px, py) <==> i == r * cols + c
  {
    hide Cut;
    var col, row := i % cols, i / cols;
    DivBounds(i, cols);
    assert i == row * cols + col;
    if Contains(GridRegion(uid, i, cols, rows, width, height), px, py) {
      PartUnique(px, c, col, width, cols);
      PartUnique(py, r, row, height, rows);
    }
    if i == r * cols + c { DivUnique(i, cols, r); }
  }

  /** All rows but the last are full. */
  lemma GridRowsFull(c: int, r: int, cols: int, rows: int, n: int)
    requires GridFits(cols, rows, n) && 0 <= c < cols && 0 <= r < rows - 1
    ensures 0 <= r * cols + c < n
  {
    MulMono(r + 1, rows - 1, cols);
    MulMono(0, r, cols);
    assert (r + 1) * cols == r * cols + cols;
    assert cols * (rows - 1) == (rows - 1) * cols;
  }

  /** So a point above the last row lies in exactly one user's region. */
  lemma GridCoversRows(px: int, py: int, cols: int, rows: int, n: int, width: int, height: int) returns (owner: int)
    requires GridFits(cols, rows, n) && Canvas(width, height)
    requires 0 <= px < width && 0 <= py < Cut(rows - 1, height, rows)
    ensures 0 <= owner < n
    ensures forall i, uid :: 0 <= i < n ==>
              (Contains(GridRegion(uid, i, cols, rows, width, height), px, py) <==> i == owner)
  {
    hide Cut, GridRegion;
    CutRange(rows - 1, height, rows);
    var c, r := PointCell(px, py, cols, rows, width, height);
    assert r < rows - 1 by {
      if r >= rows - 1 { PartStartsAt(py, r, height, rows); }
    }
    GridRowsFull(c, r, cols, rows, n);
    owner := r * cols + c;
    forall i, uid | 0 <= i < n
      ensures Contains(GridRegion(uid, i, cols, rows, width, height), px, py) <==> i == owner
    {
      GridCovers(px, py, c, r, i, uid, cols, rows, n, width, height);
    }
  }

  lemma PartStartsAt(p: int, c: int, total: int, n: int)
    requires n >= 1 && InPart(p, c, total, n)
    ensures p >= Cut(c, total, n)
  {
  }

  /** Neighbours share their edge exactly. */
  lemma GridEdgesMeet(a: string, b: string, i: int, cols: int, rows: int, width: int, height: int)
    requires cols >= 1 && rows >= 1 && i >= 0
    ensures var l := GridRegion(a, i, cols, rows, width, height);
      && (i % cols < cols - 1 ==>
            var r := GridRegion(b, i + 1, cols, rows, width, height);
            l.x + l.width == r.x && l.y == r.y && l.height == r.height)
      && (var d := GridRegion(b, i + cols, cols, rows, width, height);
          l.y + l.height == d.y && l.x == d.x && l.width == d.width)
  {
    hide Cut;
    var q, c := i / cols, i % cols;
    DivBounds(i, cols);
    assert i == q * cols + c;
    if c < cols - 1 { NextCell(i + 1, q, c + 1, cols); }
    assert (q + 1) * cols == q * cols + cols;
    NextCell(i + cols, q + 1, c, cols);
  }

  lemma NextCell(i: int, q: int, c: int, cols: int)
    requires 0 <= c < cols && i == q * cols + c
    ensures i / cols == q && i % cols == c
  {
    DivUnique(i, cols, q);
  }

  // ----- choosing the grid -----

  function CeilDiv(n: int, c: int): int
    requires c >= 1
  {
    (n + c - 1) / c
  }

  lemma CeilFits(n: int, c: int)
    requires 1 <= c <= n
    ensures GridFits(c, CeilDiv(n, c), n)
  {
    var q := CeilDiv(n, c);
    DivBounds(n + c - 1, c);
    assert q * c <= n + c - 1 < q * c + c;
    assert c * q == q * c && c * (q - 1) == q * c - c;
    if q <= 0 { MulMono(q, 0, c); }
  }

  /** How far a cell of the grid is from 16:9, with a penalty for each empty cell. */
  function Score(cols: int, n: int, width: int, height: int): real
    requires cols >= 1 && n >= 1 && height >= 1
  {
    var rows := CeilDiv(n, cols);
    var aspect := (width as real / cols as real) / (height as real / PositiveRows(n, cols) as real);
    var diff := aspect - 1.778;
    (if diff < 0.0 then -diff else diff) + (cols * rows - n) as real * 0.1
  }

  function PositiveRows(n: int, cols: int): (rows: int)
    requires cols >= 1 && n >= 1
    ensures rows >= 1 && rows == CeilDiv(n, cols)
  {
    var q := CeilDiv(n, cols);
    DivBounds(n + cols - 1, cols);
    (if q <= 0 then MulMono(q, 0, cols); q else q)
  }

  /** A canvas at least half again as wide as high. */
  predicate Wide(width: int, height: int)
    requires height >= 1
  {
    width as real / height as real >= 1.5
  }

  lemma WideIs(width: int, height: int)
    requires height >= 1
    ensures Wide(width, height) <==> 2 * width >= 3 * height
  {
    var ratio := width as real / height as real;
    assert ratio * height as real == width as real;
    if 2 * width >= 3 * height { assert width as real >= 1.5 * height as real; }
  }

  /** The grid for n users: fixed up to four users, then the first column count with the least score. */
  predicate ChosenGrid(cols: int, rows: int, n: int, width: int, height: int)
    requires width >= 1 && height >= 1
  {
    if n <= 1 then cols == 1 && rows == 1
    else if n == 2 then if Wide(width, height) then cols == 2 && rows == 1 else cols == 1 && rows == 2
    else if n == 3 then if Wide(width, height) then cols == 3 && rows == 1 else cols == 2 && rows == 2
    else if n == 4 then cols == 2 && rows == 2
    else
      && 1 <= cols <= n && rows == CeilDiv(n, cols)
      && forall c :: 1 <= c <= n ==>
           Score(cols, n, width, height) <= Score(c, n, width, height)
           && (c < cols ==> Score(cols, n, width, height) < Score(c, n, width, height))
  }

  /** It has room for all users and no empty row. */
  lemma ChosenGridFits(cols: int, rows: int, n: int, width: int, height: int)
    requires n >= 1 && width >= 1 && height >= 1 && ChosenGrid(cols, rows, n, width, height)
    ensures GridFits(cols, rows, n) && cols <= n
  {
    hide Score;
    if n >= 5 { CeilFits(n, cols); }
  }

  /**
   From five users on the grid is the first whose cells are closest to 16:9, an empty cell counting as a
   deviation of a tenth.
   */
  lemma ChosenIsClosest(cols: int, rows: int, n: int, width: int, height: int, c: int, r: int)
    requires n >= 5 && width >= 1 && height >= 1 && ChosenGrid(cols, rows, n, width, height)
    requires 1 <= c <= n && r >= 1 && c * (r - 1) < n <= c * r
    ensures cols >= 1 && rows >= 1
    ensures var mine := (width as real / cols as real) / (height as real / rows as real) - 1.778;
      var other := (width as real / c as real) / (height as real / r as real) - 1.778;
      var best := (if mine < 0.0 then -mine else mine) + (cols * rows - n) as real * 0.1;
      var score := (if other < 0.0 then -other else other) + (c * r - n) as real * 0.1;
      best <= score && (c < cols ==> best < score)
  {
    ChosenGridFits(cols, rows, n, width, height);
    OnlyRows(n, c, r);
    ScoreIs(cols, n, width, height, rows);
    ScoreIs(c, n, width, height, r);
    hide Score, CeilDiv;
  }

  /** Only one number of rows fits. */
  lemma OnlyRows(n: int, c: int, r: int)
    requires 1 <= c <= n && c * (r - 1) < n <= c * r
    ensures r == CeilDiv(n, c)
  {
    assert r * c == c * r && c * (r - 1) == c * r - c;
    DivUnique(n + c - 1, c, r);
  }

  lemma ScoreIs(c: int, n: int, width: int, height: int, r: int)
    requires c >= 1 && n >= 1 && height >= 1 && r >= 1 && r == CeilDiv(n, c)
    ensures var other := (width as real / c as real) / (height as real / r as real) - 1.778;
      Score(c, n, width, height) == (if other < 0.0 then -other else other) + (c * r - n) as real * 0.1
  {
    hide CeilDiv;
  }

  method CalculateOptimalLayout(n: int, width: int, height: int) returns (cols: int, rows: int)
    requires width >= 1 && height >= 1
    ensures ChosenGrid(cols, rows, n, width, height)
    ensures n <= 1 ==> (cols, rows) == (1, 1)
    ensures n == 2 ==> (cols, rows) == if 2 * width >= 3 * height then (2, 1) else (1, 2)
    ensures n == 3 ==> (cols, rows) == if 2 * width >= 3 * height then (3, 1) else (2, 2)
    ensures n == 4 ==> (cols, rows) == (2, 2)
  {
    WideIs(width, height);
    if n <= 0 {
      return 1, 1;
    }
    var wide := Wide(width, height);
    if n == 1 {
      return 1, 1;
    } else if n == 2 {
      if wide { return 2, 1; } else { return 1, 2; }
    } else if n == 3 {
      if wide { return 3, 1; } else { return 2, 2; }
    } else if n == 4 {
      return 2, 2;
    }
    hide Score;
    cols, rows := 1, CeilDiv(n, 1);
    var best := Score(1, n, width, height);
    for c := 2 to n + 1
      invariant 1 <= cols < c <= n + 1 && rows == CeilDiv(n, cols)
      invariant best == Score(cols, n, width, height)
      invariant forall d :: 1 <= d < c ==>
                  best <= Score(d, n, width, height) && (d < cols ==> best < Score(d, n, width, height))
    {
      var score := Score(c, n, width, height);
      if score < best {
        best, cols, rows := score, c, CeilDiv(n, c);
      }
    }
  }

  // ----- spotlight -----

  /** The thickness of the thumbnail strip along a side of the given length. */
  function Edge(length: int): int { Max(2, length / 8 * 2) }

  lemma EdgeOk(length: int)
    requires length >= 2 && length % 2 == 0
    ensures 2 <= Edge(length) <= length && Edge(length) % 2 == 0
  {
  }

  /** Region i of n > 1: the first user is large, the others share a strip at the right or the bottom. */
  function SpotlightRegion(uid: string, i: int, n: int, width: int, height: int): Region
    requires n > 1
  {
    if width >= height then
      var edge := Edge(width);
      if i == 0 then Region(uid, 0, 0, width - edge, height, 0)
      else
        var top := Cut(i - 1, height, n - 1);
        Region(uid, width - edge, top, edge, Cut(i, height, n - 1) - top, 0)
    else
      var edge := Edge(height);
      if i == 0 then Region(uid, 0, 0, width, height - edge, 0)
      else
        var left := Cut(i - 1, width, n - 1);
        Region(uid, left, height - edge, Cut(i, width, n - 1) - left, edge, 0)
  }

  lemma EvenDifference(a: int, b: int)
    requires a % 2 == 0 && b % 2 == 0
    ensures (a - b) % 2 == 0
  {
  }

  /**
   The first user has the canvas but for a strip of a quarter of the longer side, at the right of a wide
   canvas and at the bottom of a high one; the others divide the strip evenly, in order.
   */
  lemma SpotlightRegionAt(uid: string, i: int, n: int, width: int, height: int)
    requires n > 1 && 0 <= i < n && Canvas(width, height)
    ensures var r := SpotlightRegion(uid, i, n, width, height);
      var wide := width >= height;
      var side, length := if wide then width else height, if wide then height else width;
      var strip := if side < 8 then 2 else side / 8 * 2;
      var from, to := if wide then r.y else r.x, if wide then r.y + r.height else r.x + r.width;
      && r.uid == uid && r.z == 0
      && (i == 0 && wide ==> r == Region(uid, 0, 0, width - strip, height, 0))
      && (i == 0 && !wide ==> r == Region(uid, 0, 0, width, height - strip, 0))
      && (i > 0 && wide ==> r.x == width - strip && r.width == strip)
      && (i > 0 && !wide ==> r.y == height - strip && r.height == strip)
      && (i > 0 ==> 0 <= (i - 1) * length - from * (n - 1) < 2 * (n - 1))
      && (i > 0 ==> 0 <= i * length - to * (n - 1) < 2 * (n - 1))
  {
    hide Cut;
    var length := if width >= height then height else width;
    if i > 0 {
      CutNearest(i - 1, length, n - 1);
      CutNearest(i, length, n - 1);
    }
  }

  lemma SpotlightRegionOk(uid: string, i: int, n: int, width: int, height: int)
    requires n > 1 && 0 <= i < n && Canvas(width, height)
    ensures var r := SpotlightRegion(uid, i, n, width, height); EvenRegion(r) && Inside(r, width, height)
  {
    hide Cut, Edge;
    var side, along := if width >= height then width else height, if width >= height then height else width;
    EdgeOk(side);
    EvenDifference(side, Edge(side));
    if i > 0 {
      CutRange(i - 1, along, n - 1);
      CutRange(i, along, n - 1);
      CutOrder(i - 1, i, along, n - 1);
      EvenDifference(Cut(i, along, n - 1), Cut(i - 1, along, n - 1));
    }
  }

  /** The regions partition the canvas: each point lies in exactly one. */
  lemma SpotlightPartition(px: int, py: int, n: int, width: int, height: int) returns (owner: int)
    requires n > 1 && Canvas(width, height) && 0 <= px < width && 0 <= py < height
    ensures 0 <= owner < n
    ensures forall i, uid :: 0 <= i < n ==>
              (Contains(SpotlightRegion(uid, i, n, width, height), px, py) <==> i == owner)
  {
    hide Cut, Edge;
    EdgeOk(width);
    EdgeOk(height);
    var wide := width >= height;
    var along, length := if wide then py else px, if wide then height else width;
    var inMain := if wide then px < width - Edge(width) else py < height - Edge(height);
    CutEnds(length, n - 1);
    var part := FindPart(along, length, n - 1, n - 1);
    owner := if inMain then 0 else part + 1;
    forall i, uid | 0 <= i < n
      ensures Contains(SpotlightRegion(uid, i, n, width, height), px, py) <==> i == owner
    {
      if i > 0 && InPart(along, i - 1, length, n - 1) { PartUnique(along, part, i - 1, length, n - 1); }
    }
  }

  // ----- letterboxing -----

  datatype Scaled = Scaled(width: int, height: int, offsetX: int, offsetY: int)

  /** calculateScaledFrameInfo, with aspect ratios compared and applied exactly. */
  function ScaleInto(srcW: int, srcH: int, cellW: int, cellH: int, preserve: bool): Scaled
    requires srcW >= 1 && srcH >= 1
  {
    if !preserve then Scaled(cellW, cellH, 0, 0)
    else
      var wider := srcW * cellH > cellW * srcH;
      var w := Max(2, Even(if wider then cellW else cellH * srcW / srcH));
      var h := Max(2, Even(if wider then cellW * srcH / srcW else cellH));
      Scaled(w, h, (cellW - w) / 4 * 2, (cellH - h) / 4 * 2)
  }

  predicate Centred(size: int, offset: int, cell: int) {
    && offset % 2 == 0 && 0 <= offset && offset + size <= cell
    && 0 <= (cell - offset - size) - offset <= 2
  }

  lemma CentredIn(size: int, cell: int)
    requires 2 <= size <= cell && size % 2 == 0 && cell % 2 == 0
    ensures Centred(size, (cell - size) / 4 * 2, cell)
  {
  }

  lemma EvenClamp(q: int, cell: int)
    requires q <= cell && cell >= 2 && cell % 2 == 0
    ensures 2 <= Max(2, Even(q)) <= cell && Max(2, Even(q)) % 2 == 0
    ensures Max(2, Even(cell)) == cell
  {
  }

  /** The scaled length in the other direction does not exceed the cell. */
  lemma OtherSideFits(a: int, b: int, cell: int, other: int)
    requires a >= 1 && cell * b <= a * other
    ensures cell * b / a <= other
  {
    assert (other + 1) * a == a * other + a;
    DivAtMost(cell * b, a, other);
  }

  /** The picture is even, lies evenly aligned and centred in its region, and fills it in one direction. */
  lemma LetterboxFits(srcW: int, srcH: int, cellW: int, cellH: int, preserve: bool)
    requires srcW >= 1 && srcH >= 1 && cellW >= 2 && cellH >= 2 && cellW % 2 == 0 && cellH % 2 == 0
    ensures var s := ScaleInto(srcW, srcH, cellW, cellH, preserve);
      && s.width % 2 == 0 && s.height % 2 == 0 && s.width >= 2 && s.height >= 2
      && Centred(s.width, s.offsetX, cellW) && Centred(s.height, s.offsetY, cellH)
      && (s.width == cellW || s.height == cellH)
  {
    if preserve {
      var wider := srcW * cellH > cellW * srcH;
      var w := if wider then cellW else cellH * srcW / srcH;
      var h := if wider then cellW * srcH / srcW else cellH;
      if wider {
        OtherSideFits(srcW, srcH, cellW, cellH);
      } else {
        assert cellH * srcW == srcW * cellH && srcH * cellW == cellW * srcH;
        OtherSideFits(srcH, srcW, cellH, cellW);
      }
      hide Centred, Even, Max;
      EvenClamp(w, cellW);
      EvenClamp(h, cellH);
      CentredIn(Max(2, Even(w)), cellW);
      CentredIn(Max(2, Even(h)), cellH);
    } else {
      CentredIn(cellW, cellW);
      CentredIn(cellH, cellH);
    }
  }

  /** Up to even rounding the picture keeps the source's aspect ratio. */
  lemma LetterboxKeepsAspect(srcW: int, srcH: int, cellW: int, cellH: int)
    requires srcW >= 1 && srcH >= 1 && cellW >= 2 && cellH >= 2 && cellW % 2 == 0 && cellH % 2 == 0
    ensures var s := ScaleInto(srcW, srcH, cellW, cellH, true);
      && (s.height > 2 && srcW * cellH > cellW * srcH ==> 0 <= cellW * srcH - s.height * srcW < 2 * srcW)
      && (s.width > 2 && srcW * cellH <= cellW * srcH ==> 0 <= cellH * srcW - s.width * srcH < 2 * srcH)
  {
    var wider := srcW * cellH > cellW * srcH;
    if wider { EvenQuotient(cellW * srcH, srcW); } else { EvenQuotient(cellH * srcW, srcH); }
  }

  lemma EvenQuotient(a: int, c: int)
    requires c >= 1 && a >= 0
    ensures 0 <= a - Even(a / c) * c < 2 * c
  {
    DivBounds(a, c);
    var q := a / c;
    var e := Even(q);
    assert (q - e) * c == q * c - e * c;
    MulMono(0, q - e, c);
    MulMono(q - e, 1, c);
  }
}
