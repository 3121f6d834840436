/**
 Tile geometry of the slider puzzle: g by g tiles whose borders come from integer
 division, and the seam score, which compares the pixels on both sides of every
 border after the tiles were rearranged.
 */
module Tiles {
  import opened Arithmetic
  import opened Sums
  import opened Swaps

  datatype Rect = Rect(minX: int, minY: int, maxX: int, maxY: int) {
    function Dx(): int { maxX - minX }

    function Dy(): int { maxY - minY }

    predicate Contains(x: int, y: int) {
      minX <= x < maxX && minY <= y < maxY
    }
  }

  /** Corners in either order give the same rectangle. */
  function MakeRect(x0: int, y0: int, x1: int, y1: int): Rect {
    Rect(if x0 > x1 then x1 else x0, if y0 > y1 then y1 else y0, if x0 > x1 then x0 else x1, if y0 > y1 then y0 else y1)
  }

  /** Where tile number c of g begins on a side of that length. */
  function Edge(c: nat, size: nat, g: nat): (e: nat)
    requires g > 0
  {
    FloorIsNat(c * size, g);
    c * size / g
  }

  lemma FloorIsNat(a: nat, g: nat)
    requires g > 0
    ensures a / g >= 0
  {}

  /** Edge c of g is c parts in g of the side, rounded down; so no two tiles differ by more than one pixel. */
  lemma EdgeIsFloor(c: nat, size: nat, g: nat)
    requires g > 0
    ensures Edge(c, size, g) * g <= c * size < (Edge(c, size, g) + 1) * g
    ensures size / g <= Edge(c + 1, size, g) - Edge(c, size, g) <= size / g + 1
  {
    DivModEquation(c * size, g);
    DivModEquation((c + 1) * size, g);
    DivModEquation(size, g);
    NextMultiple(Edge(c, size, g), g);
    NextMultiple(c, size);
    var a, b, q := Edge(c, size, g), Edge(c + 1, size, g), size / g;
    assert (b - a - q) * g == b * g - a * g - q * g;
    if b - a - q < 0 {
      ProductMonotone(b - a - q, -1, g);
    } else if b - a - q > 1 {
      ProductMonotone(2, b - a - q, g);
    }
  }

  /** A rectangle as the image library makes them: its corners are in order. */
  predicate Framed(bounds: Rect) {
    bounds.Dx() >= 0 && bounds.Dy() >= 0
  }

  function TileRect(bounds: Rect, g: nat, index: nat): Rect
    requires g > 0 && Framed(bounds)
  {
    var col, row := index % g, index / g;
    MakeRect(bounds.minX + Edge(col, bounds.Dx(), g), bounds.minY + Edge(row, bounds.Dy(), g),
             bounds.minX + Edge(col + 1, bounds.Dx(), g), bounds.minY + Edge(row + 1, bounds.Dy(), g))
  }

  // ---------------------------------------------------------------------
  // Edges
  // ---------------------------------------------------------------------

  /** The tile along one side that position x falls into, in closed form. */
  function Owner(x: nat, size: nat, g: nat): (c: nat)
    requires x < size && g > 0
  {
    ProductAtLeast(x + 1, g);
    FloorIsNat((x + 1) * g - 1, size);
    ((x + 1) * g - 1) / size
  }

  /** A position lies in the tile that owns it and in no other, and the owner is one of the g tiles. */
  lemma OwnerIsUnique(x: nat, size: nat, g: nat, c: nat)
    requires x < size && g > 0
    ensures Edge(c, size, g) <= x < Edge(c + 1, size, g) <==> c == Owner(x, size, g)
    ensures Owner(x, size, g) < g
  {
    EdgeBelow(x, size, g, c);
    EdgeBelow(x, size, g, c + 1);
    DivAtLeast((x + 1) * g - 1, size, g);
    ProductMonotone(x + 1, size, g);
  }

  lemma EdgeBelow(x: nat, size: nat, g: nat, c: nat)
    requires x < size && g > 0
    ensures Edge(c, size, g) <= x <==> c <= Owner(x, size, g)
  {
    DivAtMost(c * size, g, x);
    DivAtLeast((x + 1) * g - 1, size, c);
  }

  lemma EdgeEnds(size: nat, g: nat)
    requires g > 0
    ensures Edge(0, size, g) == 0 && Edge(g, size, g) == size
  {
    DivModUnique(0, g, 0, 0);
    DivModUnique(g * size, g, size, 0);
  }

  /** Edges never go back, and with at least as many pixels as tiles they always go on. */
  lemma EdgesAdvance(size: nat, g: nat, c: nat)
    requires g > 0
    ensures Edge(c, size, g) <= Edge(c + 1, size, g)
    ensures g <= size ==> Edge(c, size, g) < Edge(c + 1, size, g)
  {
    var e := Edge(c, size, g);
    NextMultiple(c, size);
    NextMultiple(e, g);
    DivAtLeast(c * size, g, e);
    DivAtLeast((c + 1) * size, g, e);
    DivAtLeast((c + 1) * size, g, e + 1);
  }

  /** All tiles end within the side. */
  lemma EdgeWithin(size: nat, g: nat, c: nat)
    requires c < g
    ensures Edge(c + 1, size, g) <= size
  {
    DivAtMost((c + 1) * size, g, size);
    ProductMonotone(c + 1, g, size);
    NextMultiple(size, g);
  }

  /** All tiles along a side are non-empty exactly when there are at most as many tiles as pixels. */
  lemma {:induction false} NarrowestTile(size: nat, g: nat)
    requires g > 0
    ensures g <= size <==> forall c :: 0 <= c < g ==> Edge(c, size, g) < Edge(c + 1, size, g)
  {
    forall c | 0 <= c < g && g <= size ensures Edge(c, size, g) < Edge(c + 1, size, g) {
      EdgesAdvance(size, g, c);
    }
    if forall c :: 0 <= c < g ==> Edge(c, size, g) < Edge(c + 1, size, g) {
      EdgesClimb(size, g, g);
      EdgeEnds(size, g);
    }
  }

  lemma {:induction false} EdgesClimb(size: nat, g: nat, n: nat)
    requires g > 0 && n <= g
    requires forall c :: 0 <= c < g ==> Edge(c, size, g) < Edge(c + 1, size, g)
    ensures Edge(n, size, g) >= n
  {
    if n > 0 {
      EdgesClimb(size, g, n - 1);
      assert Edge(n - 1, size, g) < Edge(n - 1 + 1, size, g);
    }
  }

  // ---------------------------------------------------------------------
  // Tiles
  // ---------------------------------------------------------------------

  /** An image of at least one pixel. */
  predicate Proper(bounds: Rect) {
    bounds.Dx() >= 1 && bounds.Dy() >= 1
  }

  /** A tile in terms of its row and column; nothing needs reordering. */
  lemma TileAt(bounds: Rect, g: nat, row: nat, col: nat)
    requires Proper(bounds) && col < g
    ensures row * g + col >= 0
    ensures TileRect(bounds, g, row * g + col)
         == Rect(bounds.minX + Edge(col, bounds.Dx(), g), bounds.minY + Edge(row, bounds.Dy(), g),
                 bounds.minX + Edge(col + 1, bounds.Dx(), g), bounds.minY + Edge(row + 1, bounds.Dy(), g))
  {
    DivModUnique(row * g + col, g, row, col);
    EdgesAdvance(bounds.Dx(), g, col);
    EdgesAdvance(bounds.Dy(), g, row);
  }

  /** The index of the tile that a pixel belongs to. */
  function TileOf(bounds: Rect, g: nat, x: int, y: int): (index: nat)
    requires g > 0 && bounds.Contains(x, y)
  {
    ProductAtLeast(Owner(y - bounds.minY, bounds.Dy(), g) + 1, g);
    NextMultiple(Owner(y - bounds.minY, bounds.Dy(), g), g);
    Owner(y - bounds.minY, bounds.Dy(), g) * g + Owner(x - bounds.minX, bounds.Dx(), g)
  }

  lemma IndexParts(g: nat, index: nat)
    requires g > 0 && index < g * g
    ensures index / g < g && index % g < g && index / g * g + index % g == index
  {
    DivModEquation(index, g);
    DivAtLeast(index, g, g);
  }

  /** For any grid size, every pixel of the image lies in exactly one of the g * g tiles. */
  lemma TilesPartitionTheImage(bounds: Rect, g: nat, x: int, y: int, index: nat)
    requires g > 0 && bounds.Contains(x, y) && index < g * g
    ensures TileRect(bounds, g, index).Contains(x, y) <==> index == TileOf(bounds, g, x, y)
    ensures TileOf(bounds, g, x, y) < g * g
  {
    var row, col := index / g, index % g;
    IndexParts(g, index);
    TileAt(bounds, g, row, col);
    OwnerIsUnique(x - bounds.minX, bounds.Dx(), g, col);
    OwnerIsUnique(y - bounds.minY, bounds.Dy(), g, row);
    var r, c := Owner(y - bounds.minY, bounds.Dy(), g), Owner(x - bounds.minX, bounds.Dx(), g);
    DivModUnique(r * g + c, g, r, c);
    ProductMonotone(r + 1, g, g);
    NextMultiple(r, g);
  }

  /** Tiles stay within the image, and none is empty when the grid is no finer than the pixels. */
  lemma TileWithinImage(bounds: Rect, g: nat, index: nat)
    requires Proper(bounds) && g > 0 && index < g * g
    ensures var t := TileRect(bounds, g, index);
            && bounds.minX <= t.minX <= t.maxX <= bounds.maxX && bounds.minY <= t.minY <= t.maxY <= bounds.maxY
            && (g <= bounds.Dx() ==> t.Dx() >= 1) && (g <= bounds.Dy() ==> t.Dy() >= 1)
  {
    var row, col := index / g, index % g;
    IndexParts(g, index);
    TileAt(bounds, g, row, col);
    EdgesAdvance(bounds.Dx(), g, col);
    EdgesAdvance(bounds.Dy(), g, row);
    EdgeWithin(bounds.Dx(), g, col);
    EdgeWithin(bounds.Dy(), g, row);
  }

  // ---------------------------------------------------------------------
  // Sampling
  // ---------------------------------------------------------------------

  /** Division that truncates toward zero. */
  function TruncDiv(a: int, b: int): int
    requires b > 0
  {
    if a >= 0 then a / b else -((-a) / b)
  }

  function Along(pos: int, dstMin: int, dstLen: int, srcMin: int, srcLen: int): int {
    srcMin + TruncDiv((pos - dstMin) * srcLen, if dstLen < 1 then 1 else dstLen)
  }

  datatype Point = Point(x: int, y: int)

  /** The source pixel that is shown at (x, y) of the destination tile. */
  function Sample(dst: Rect, src: Rect, x: int, y: int): Point {
    Point(Along(x, dst.minX, dst.Dx(), src.minX, src.Dx()), Along(y, dst.minY, dst.Dy(), src.minY, src.Dy()))
  }

  lemma AlongStaysInside(off: nat, dstLen: nat, srcLen: nat)
    requires off < dstLen && srcLen > 0
    ensures off * srcLen >= 0 && 0 <= off * srcLen / dstLen < srcLen
    ensures srcLen == dstLen ==> off * srcLen / dstLen == off
  {
    ProductMonotone(0, off, srcLen);
    ProductMonotone(off + 1, dstLen, srcLen);
    NextMultiple(off, srcLen);
    DivAtLeast(off * srcLen, dstLen, 0);
    DivAtMost(off * srcLen, dstLen, srcLen - 1);
    if srcLen == dstLen {
      DivModUnique(off * srcLen, dstLen, off, 0);
    }
  }

  /** A pixel of the destination tile shows a pixel of the source tile; a tile in its own place shows itself. */
  lemma SampleInSource(dst: Rect, src: Rect, x: int, y: int)
    requires dst.Contains(x, y) && Proper(src)
    ensures src.Contains(Sample(dst, src, x, y).x, Sample(dst, src, x, y).y)
    ensures src == dst ==> Sample(dst, src, x, y) == Point(x, y)
  {
    AlongStaysInside(x - dst.minX, dst.Dx(), src.Dx());
    AlongStaysInside(y - dst.minY, dst.Dy(), src.Dy());
  }

  /** Position q of a side of n pixels shows as much of it as position p shows of a side of m pixels. */
  predicate InProportion(p: int, m: int, q: int, n: int) {
    q * m <= p * n < (q + 1) * m
  }

  lemma AlongIsProportional(off: nat, dstLen: nat, srcLen: nat)
    requires off < dstLen && srcLen > 0
    ensures off * srcLen >= 0 && InProportion(off, dstLen, off * srcLen / dstLen, srcLen)
    ensures srcLen == dstLen ==> off * srcLen / dstLen == off
  {
    var q := off * srcLen / dstLen;
    AlongStaysInside(off, dstLen, srcLen);
    DivAtLeast(off * srcLen, dstLen, q);
    DivAtMost(off * srcLen, dstLen, q);
  }

  /** Tiles of different sizes are shown in proportion, and tiles of the same size pixel for pixel. */
  lemma SampleIsProportional(dst: Rect, src: Rect, x: int, y: int)
    requires dst.Contains(x, y) && Proper(src)
    ensures var p := Sample(dst, src, x, y);
            && InProportion(x - dst.minX, dst.Dx(), p.x - src.minX, src.Dx())
            && InProportion(y - dst.minY, dst.Dy(), p.y - src.minY, src.Dy())
            && (src.Dx() == dst.Dx() ==> p.x - src.minX == x - dst.minX)
            && (src.Dy() == dst.Dy() ==> p.y - src.minY == y - dst.minY)
  {
    AlongIsProportional(x - dst.minX, dst.Dx(), src.Dx());
    AlongIsProportional(y - dst.minY, dst.Dy(), src.Dy());
  }

  // ---------------------------------------------------------------------
  // Seams
  // ---------------------------------------------------------------------

  datatype Side = RightOf | Below

  /** The border between the tile at (row, col) and the tile right of it or below it. */
  datatype Seam = Seam(side: Side, row: nat, col: nat)

  function Rows(side: Side, g: nat): nat {
    if side.RightOf? || g == 0 then g else g - 1
  }

  function Cols(side: Side, g: nat): nat {
    if side.Below? || g == 0 then g else g - 1
  }

  predicate OnGrid(seam: Seam, g: nat) {
    seam.row < Rows(seam.side, g) && seam.col < Cols(seam.side, g)
  }

  lemma IndexBelow(row: nat, col: nat, g: nat)
    requires row < g && col < g
    ensures 0 <= row * g + col < g * g
  {
    NextMultiple(row, g);
    ProductMonotone(row + 1, g, g);
    ProductMonotone(0, row, g);
  }

  function Near(seam: Seam, g: nat): (i: nat)
    requires OnGrid(seam, g)
    ensures i < g * g
  {
    IndexBelow(seam.row, seam.col, g);
    seam.row * g + seam.col
  }

  function Far(seam: Seam, g: nat): (i: nat)
    requires OnGrid(seam, g)
    ensures i < g * g
  {
    if seam.side.RightOf? then
      IndexBelow(seam.row, seam.col + 1, g);
      seam.row * g + seam.col + 1
    else
      IndexBelow(seam.row + 1, seam.col, g);
      (seam.row + 1) * g + seam.col
  }

  function NearTile(bounds: Rect, g: nat, seam: Seam): Rect
    requires Framed(bounds) && OnGrid(seam, g)
  {
    TileRect(bounds, g, Near(seam, g))
  }

  function FarTile(bounds: Rect, g: nat, seam: Seam): Rect
    requires Framed(bounds) && OnGrid(seam, g)
  {
    TileRect(bounds, g, Far(seam, g))
  }

  /** How many pixel pairs the border is compared at. */
  function SeamLength(bounds: Rect, g: nat, seam: Seam): nat
    requires Framed(bounds) && OnGrid(seam, g)
  {
    var a, b := NearTile(bounds, g, seam), FarTile(bounds, g, seam);
    if seam.side.RightOf? then
      if b.Dy() < a.Dy() then b.Dy() else a.Dy()
    else
      if b.Dx() < a.Dx() then b.Dx() else a.Dx()
  }

  /** The pixel on the near side of the border, t pixels along it. */
  function NearPixel(bounds: Rect, g: nat, seam: Seam, t: int): Point
    requires Framed(bounds) && OnGrid(seam, g)
  {
    var a := NearTile(bounds, g, seam);
    if seam.side.RightOf? then Point(a.maxX - 1, a.minY + t) else Point(a.minX + t, a.maxY - 1)
  }

  /** The pixel on the far side of the border, t pixels along it. */
  function FarPixel(bounds: Rect, g: nat, seam: Seam, t: int): Point
    requires Framed(bounds) && OnGrid(seam, g)
  {
    var a, b := NearTile(bounds, g, seam), FarTile(bounds, g, seam);
    if seam.side.RightOf? then Point(b.minX, a.minY + t) else Point(a.minX + t, b.minY)
  }

  /** The pixel right of p or below it. */
  function Neighbour(p: Point, side: Side): Point {
    if side.RightOf? then Point(p.x + 1, p.y) else Point(p.x, p.y + 1)
  }

  /** The tile at (row, col) of the grid. */
  function GridTile(bounds: Rect, g: nat, row: nat, col: nat): Rect
    requires g > 0 && Framed(bounds)
  {
    Rect(bounds.minX + Edge(col, bounds.Dx(), g), bounds.minY + Edge(row, bounds.Dy(), g),
         bounds.minX + Edge(col + 1, bounds.Dx(), g), bounds.minY + Edge(row + 1, bounds.Dy(), g))
  }

  lemma NearTileAt(bounds: Rect, g: nat, seam: Seam)
    requires Proper(bounds) && OnGrid(seam, g)
    ensures NearTile(bounds, g, seam) == GridTile(bounds, g, seam.row, seam.col)
  {
    TileAt(bounds, g, seam.row, seam.col);
  }

  lemma FarTileAt(bounds: Rect, g: nat, seam: Seam)
    requires Proper(bounds) && OnGrid(seam, g)
    ensures FarTile(bounds, g, seam)
         == if seam.side.RightOf? then GridTile(bounds, g, seam.row, seam.col + 1)
            else GridTile(bounds, g, seam.row + 1, seam.col)
  {
    if seam.side.RightOf? {
      TileAt(bounds, g, seam.row, seam.col + 1);
    } else {
      TileAt(bounds, g, seam.row + 1, seam.col);
    }
  }

  /** The two tiles of a border touch along their whole sides. */
  lemma SideTilesTouch(bounds: Rect, g: nat, seam: Seam)
    requires Proper(bounds) && OnGrid(seam, g)
    ensures var a, b := NearTile(bounds, g, seam), FarTile(bounds, g, seam);
            if seam.side.RightOf? then a.maxX == b.minX && a.minY == b.minY && a.maxY == b.maxY
            else a.maxY == b.minY && a.minX == b.minX && a.maxX == b.maxX
  {
    NearTileAt(bounds, g, seam);
    FarTileAt(bounds, g, seam);
  }

  /** The two pixels belong to the two tiles, and are neighbours in the picture. */
  lemma SidesAreInTiles(bounds: Rect, g: nat, seam: Seam, t: nat)
    requires Proper(bounds) && g <= bounds.Dx() && g <= bounds.Dy() && OnGrid(seam, g)
    requires t < SeamLength(bounds, g, seam)
    ensures NearTile(bounds, g, seam).Contains(NearPixel(bounds, g, seam, t).x, NearPixel(bounds, g, seam, t).y)
    ensures FarTile(bounds, g, seam).Contains(FarPixel(bounds, g, seam, t).x, FarPixel(bounds, g, seam, t).y)
    ensures FarPixel(bounds, g, seam, t) == Neighbour(NearPixel(bounds, g, seam, t), seam.side)
  {
    TileWithinImage(bounds, g, Near(seam, g));
    TileWithinImage(bounds, g, Far(seam, g));
    SideTilesTouch(bounds, g, seam);
  }

  // ---------------------------------------------------------------------
  // The rearranged picture
  // ---------------------------------------------------------------------

  /** Which tile of the image each place of the picture shows. */
  ghost predicate Mapping(m: seq<int>, g: nat) {
    |m| == g * g && forall i :: 0 <= i < |m| ==> 0 <= m[i] < g * g
  }

  /** What the code reads for the pixel p of place number i. */
  function Shown(bounds: Rect, g: nat, m: seq<int>, i: nat, p: Point): Point
    requires g > 0 && Framed(bounds) && i < |m| && m[i] >= 0
  {
    Sample(TileRect(bounds, g, i), TileRect(bounds, g, m[i]), p.x, p.y)
  }

  /** Every pixel read for a place lies in the tile shown there, hence inside the image. */
  lemma ShownIsInside(bounds: Rect, g: nat, m: seq<int>, i: nat, p: Point)
    requires Proper(bounds) && 0 < g <= bounds.Dx() && g <= bounds.Dy() && Mapping(m, g) && i < |m|
    requires TileRect(bounds, g, i).Contains(p.x, p.y)
    ensures var q := Shown(bounds, g, m, i, p);
            && TileRect(bounds, g, m[i]).Contains(q.x, q.y) && bounds.Contains(q.x, q.y)
            && (m[i] == i ==> q == p)
  {
    TileWithinImage(bounds, g, i);
    TileWithinImage(bounds, g, m[i]);
    SampleInSource(TileRect(bounds, g, i), TileRect(bounds, g, m[i]), p.x, p.y);
  }

  /**
   Every pixel that the seam scores read lies in the source tile it is taken
   from, hence inside the image; and a tile in its own place shows itself.
   */
  lemma SeamPixelsAreInSource(bounds: Rect, g: nat, m: seq<int>, seam: Seam, t: nat)
    requires Proper(bounds) && g <= bounds.Dx() && g <= bounds.Dy() && OnGrid(seam, g) && Mapping(m, g)
    requires t < SeamLength(bounds, g, seam)
    ensures var p := Shown(bounds, g, m, Near(seam, g), NearPixel(bounds, g, seam, t));
            && TileRect(bounds, g, m[Near(seam, g)]).Contains(p.x, p.y) && bounds.Contains(p.x, p.y)
            && (m[Near(seam, g)] == Near(seam, g) ==> p == NearPixel(bounds, g, seam, t))
    ensures var q := Shown(bounds, g, m, Far(seam, g), FarPixel(bounds, g, seam, t));
            && TileRect(bounds, g, m[Far(seam, g)]).Contains(q.x, q.y) && bounds.Contains(q.x, q.y)
            && (m[Far(seam, g)] == Far(seam, g) ==> q == FarPixel(bounds, g, seam, t))
  {
    SidesAreInTiles(bounds, g, seam, t);
    ShownIsInside(bounds, g, m, Near(seam, g), NearPixel(bounds, g, seam, t));
    ShownIsInside(bounds, g, m, Far(seam, g), FarPixel(bounds, g, seam, t));
  }

  /** The pixel of the image that the rearranged picture shows at p. */
  function Origin(bounds: Rect, g: nat, m: seq<int>, p: Point): Point
    requires g > 0 && Framed(bounds)
  {
    if bounds.Contains(p.x, p.y) && TileOf(bounds, g, p.x, p.y) < |m| && m[TileOf(bounds, g, p.x, p.y)] >= 0 then
      Shown(bounds, g, m, TileOf(bounds, g, p.x, p.y), p)
    else
      p
  }

  /** A pixel of a place is taken where the code takes it. */
  lemma OriginIsShown(bounds: Rect, g: nat, m: seq<int>, i: nat, p: Point)
    requires Proper(bounds) && g > 0 && Mapping(m, g) && i < |m|
    requires TileRect(bounds, g, i).Contains(p.x, p.y)
    ensures Origin(bounds, g, m, p) == Shown(bounds, g, m, i, p)
  {
    TileWithinImage(bounds, g, i);
    TilesPartitionTheImage(bounds, g, p.x, p.y, i);
  }

  /** The picture with its tiles rearranged, as if it had been drawn. */
  function Rendered<T>(img: Point -> T, bounds: Rect, g: nat, m: seq<int>): Point -> T
    requires g > 0 && Framed(bounds)
  {
    (p: Point) => img(Origin(bounds, g, m, p))
  }

  // ---------------------------------------------------------------------
  // The seam score
  // ---------------------------------------------------------------------

  /** The difference across a border, in a picture that is already drawn. */
  function Step<T>(pic: Point -> T, diff: (T, T) -> int, bounds: Rect, g: nat, seam: Seam, t: int): int
    requires Framed(bounds) && OnGrid(seam, g)
  {
    diff(pic(NearPixel(bounds, g, seam, t)), pic(FarPixel(bounds, g, seam, t)))
  }

  function Steps<T>(pic: Point -> T, diff: (T, T) -> int, bounds: Rect, g: nat, seam: Seam): int -> int
    requires Framed(bounds) && OnGrid(seam, g)
  {
    t => Step(pic, diff, bounds, g, seam, t)
  }

  /** The differences along one border. */
  function AlongSeam<T>(pic: Point -> T, diff: (T, T) -> int, bounds: Rect, g: nat, seam: Seam): int
    requires Framed(bounds) && OnGrid(seam, g)
  {
    Total(Steps(pic, diff, bounds, g, seam), SeamLength(bounds, g, seam))
  }

  /** The differences along each border of a row of tiles. */
  function Borders<T>(pic: Point -> T, diff: (T, T) -> int, bounds: Rect, g: nat, side: Side, row: int): int -> int
    requires Framed(bounds)
  {
    col =>
      if 0 <= row && 0 <= col && OnGrid(Seam(side, row, col), g) then
        AlongSeam(pic, diff, bounds, g, Seam(side, row, col))
      else
        0
  }

  function AlongRow<T>(pic: Point -> T, diff: (T, T) -> int, bounds: Rect, g: nat, side: Side, row: int): int
    requires Framed(bounds)
  {
    Total(Borders(pic, diff, bounds, g, side, row), Cols(side, g))
  }

  function AlongRows<T>(pic: Point -> T, diff: (T, T) -> int, bounds: Rect, g: nat, side: Side): int -> int
    requires Framed(bounds)
  {
    row => AlongRow(pic, diff, bounds, g, side, row)
  }

  /** How much a picture changes across the borders of a g by g grid. */
  function BorderScore<T>(pic: Point -> T, diff: (T, T) -> int, bounds: Rect, g: nat): int
    requires g > 0 && Framed(bounds)
  {
    Total(AlongRows(pic, diff, bounds, g, RightOf), Rows(RightOf, g))
    + Total(AlongRows(pic, diff, bounds, g, Below), Rows(Below, g))
  }

  /** What the code compares is what the rearranged picture shows. */
  lemma ShownStep<T>(img: Point -> T, diff: (T, T) -> int, bounds: Rect, g: nat, m: seq<int>, seam: Seam, t: nat)
    requires Proper(bounds) && g <= bounds.Dx() && g <= bounds.Dy() && OnGrid(seam, g) && Mapping(m, g)
    requires t < SeamLength(bounds, g, seam)
    ensures Step(Rendered(img, bounds, g, m), diff, bounds, g, seam, t)
         == diff(img(Shown(bounds, g, m, Near(seam, g), NearPixel(bounds, g, seam, t))),
                 img(Shown(bounds, g, m, Far(seam, g), FarPixel(bounds, g, seam, t))))
  {
    SidesAreInTiles(bounds, g, seam, t);
    OriginIsShown(bounds, g, m, Near(seam, g), NearPixel(bounds, g, seam, t));
    OriginIsShown(bounds, g, m, Far(seam, g), FarPixel(bounds, g, seam, t));
  }

  predicate NoFinerThan(g: nat, bounds: Rect) {
    g <= bounds.Dx() && g <= bounds.Dy()
  }

  /** The innermost loop: one border, pixel pair by pixel pair. */
  method ScoreSeam<T>(img: Point -> T, diff: (T, T) -> int, bounds: Rect, g: nat, m: seq<int>, seam: Seam)
    returns (score: int)
    requires Framed(bounds) && OnGrid(seam, g) && Mapping(m, g)
    ensures NoFinerThan(g, bounds) ==> score == AlongSeam(Rendered(img, bounds, g, m), diff, bounds, g, seam)
  {
    var near, far := Near(seam, g), Far(seam, g);
    var length := SeamLength(bounds, g, seam);
    ghost var pic := Rendered(img, bounds, g, m);
    ghost var steps := Steps(pic, diff, bounds, g, seam);
    score := 0;
    for t := 0 to length
      invariant NoFinerThan(g, bounds) ==> score == Total(steps, t)
    {
      if NoFinerThan(g, bounds) {
        ShownStep(img, diff, bounds, g, m, seam, t);
      }
      var a := img(Shown(bounds, g, m, near, NearPixel(bounds, g, seam, t)));
      var b := img(Shown(bounds, g, m, far, FarPixel(bounds, g, seam, t)));
      score := score + diff(a, b);
    }
  }

  /** The loop over the columns of one row. */
  method ScoreRow<T>(img: Point -> T, diff: (T, T) -> int, bounds: Rect, g: nat, m: seq<int>, side: Side, row: nat)
    returns (score: int)
    requires Framed(bounds) && g > 0 && Mapping(m, g) && row < Rows(side, g)
    ensures NoFinerThan(g, bounds) ==> score == AlongRow(Rendered(img, bounds, g, m), diff, bounds, g, side, row)
  {
    ghost var pic := Rendered(img, bounds, g, m);
    ghost var borders := Borders(pic, diff, bounds, g, side, row);
    var cols := Cols(side, g);
    score := 0;
    for col := 0 to cols
      invariant NoFinerThan(g, bounds) ==> score == Total(borders, col)
    {
      var one := ScoreSeam(img, diff, bounds, g, m, Seam(side, row, col));
      score := score + one;
    }
  }

  /** The loop over the rows, for one kind of border. */
  method ScoreSide<T>(img: Point -> T, diff: (T, T) -> int, bounds: Rect, g: nat, m: seq<int>, side: Side)
    returns (score: int)
    requires Framed(bounds) && g > 0 && Mapping(m, g)
    ensures NoFinerThan(g, bounds) ==>
              score == Total(AlongRows(Rendered(img, bounds, g, m), diff, bounds, g, side), Rows(side, g))
  {
    ghost var pic := Rendered(img, bounds, g, m);
    ghost var sums := AlongRows(pic, diff, bounds, g, side);
    var rows := Rows(side, g);
    score := 0;
    for row := 0 to rows
      invariant NoFinerThan(g, bounds) ==> score == Total(sums, row)
    {
      var one := ScoreRow(img, diff, bounds, g, m, side, row);
      score := score + one;
    }
  }

  /**
   The seam score, which samples the image through the mapping, is the border
   score of the picture with its tiles rearranged: no picture need be drawn.
   */
  method SeamScore<T>(img: Point -> T, diff: (T, T) -> int, bounds: Rect, g: nat, m: seq<int>) returns (score: int)
    requires Framed(bounds) && g > 0 && Mapping(m, g)
    ensures NoFinerThan(g, bounds) ==> score == BorderScore(Rendered(img, bounds, g, m), diff, bounds, g)
  {
    var across := ScoreSide(img, diff, bounds, g, m, RightOf);
    var down := ScoreSide(img, diff, bounds, g, m, Below);
    score := across + down;
  }

  // ---------------------------------------------------------------------
  // Only pixels of the image count
  // ---------------------------------------------------------------------

  ghost predicate SameInside<T(!new)>(a: Point -> T, b: Point -> T, bounds: Rect) {
    forall p: Point :: bounds.Contains(p.x, p.y) ==> a(p) == b(p)
  }

  /** Rearranging reads nothing outside the image, and the solved arrangement leaves the image as it is. */
  lemma RenderedReadsInside<T(!new)>(a: Point -> T, b: Point -> T, bounds: Rect, g: nat, m: seq<int>)
    requires Proper(bounds) && g > 0 && NoFinerThan(g, bounds) && Mapping(m, g) && SameInside(a, b, bounds)
    ensures SameInside(Rendered(a, bounds, g, m), Rendered(b, bounds, g, m), bounds)
    ensures m == Identity(g * g) ==> SameInside(Rendered(a, bounds, g, m), b, bounds)
  {
    forall p: Point | bounds.Contains(p.x, p.y)
      ensures bounds.Contains(Origin(bounds, g, m, p).x, Origin(bounds, g, m, p).y)
      ensures m == Identity(g * g) ==> Origin(bounds, g, m, p) == p
    {
      var i := TileOf(bounds, g, p.x, p.y);
      TilesPartitionTheImage(bounds, g, p.x, p.y, 0);
      TilesPartitionTheImage(bounds, g, p.x, p.y, i);
      OriginIsShown(bounds, g, m, i, p);
      ShownIsInside(bounds, g, m, i, p);
    }
  }

  lemma SeamReadsInside<T(!new)>(
    a: Point -> T, b: Point -> T, diff: (T, T) -> int, bounds: Rect, g: nat, seam: Seam)
    requires Proper(bounds) && NoFinerThan(g, bounds) && OnGrid(seam, g) && SameInside(a, b, bounds)
    ensures AlongSeam(a, diff, bounds, g, seam) == AlongSeam(b, diff, bounds, g, seam)
  {
    var length := SeamLength(bounds, g, seam);
    forall t | 0 <= t < length ensures Step(a, diff, bounds, g, seam, t) == Step(b, diff, bounds, g, seam, t) {
      SidesAreInTiles(bounds, g, seam, t);
      TileWithinImage(bounds, g, Near(seam, g));
      TileWithinImage(bounds, g, Far(seam, g));
    }
    SameTotal(Steps(a, diff, bounds, g, seam), Steps(b, diff, bounds, g, seam), length);
  }

  lemma RowReadsInside<T(!new)>(
    a: Point -> T, b: Point -> T, diff: (T, T) -> int, bounds: Rect, g: nat, side: Side, row: nat)
    requires Proper(bounds) && NoFinerThan(g, bounds) && row < Rows(side, g) && SameInside(a, b, bounds)
    ensures AlongRow(a, diff, bounds, g, side, row) == AlongRow(b, diff, bounds, g, side, row)
  {
    var mine, yours := Borders(a, diff, bounds, g, side, row), Borders(b, diff, bounds, g, side, row);
    forall col | 0 <= col < Cols(side, g) ensures mine(col) == yours(col) {
      SeamReadsInside(a, b, diff, bounds, g, Seam(side, row, col));
    }
    SameTotal(mine, yours, Cols(side, g));
  }

  lemma SideReadsInside<T(!new)>(
    a: Point -> T, b: Point -> T, diff: (T, T) -> int, bounds: Rect, g: nat, side: Side)
    requires g > 0 && Proper(bounds) && NoFinerThan(g, bounds) && SameInside(a, b, bounds)
    ensures Total(AlongRows(a, diff, bounds, g, side), Rows(side, g))
         == Total(AlongRows(b, diff, bounds, g, side), Rows(side, g))
  {
    var mine, yours := AlongRows(a, diff, bounds, g, side), AlongRows(b, diff, bounds, g, side);
    forall row | 0 <= row < Rows(side, g) ensures mine(row) == yours(row) {
      RowReadsInside(a, b, diff, bounds, g, side, row);
    }
    SameTotal(mine, yours, Rows(side, g));
  }

  /** The score of an arrangement depends only on the pixels of the image; the solved one scores the image itself. */
  lemma ScoreReadsInside<T(!new)>(a: Point -> T, b: Point -> T, diff: (T, T) -> int, bounds: Rect, g: nat, m: seq<int>)
    requires Proper(bounds) && g > 0 && NoFinerThan(g, bounds) && Mapping(m, g) && SameInside(a, b, bounds)
    ensures BorderScore(Rendered(a, bounds, g, m), diff, bounds, g)
         == BorderScore(Rendered(b, bounds, g, m), diff, bounds, g)
    ensures m == Identity(g * g) ==>
              BorderScore(Rendered(a, bounds, g, m), diff, bounds, g) == BorderScore(a, diff, bounds, g)
  {
    RenderedReadsInside(a, b, bounds, g, m);
    RenderedReadsInside(b, a, bounds, g, m);
    ScoreInside(Rendered(a, bounds, g, m), Rendered(b, bounds, g, m), diff, bounds, g);
    if m == Identity(g * g) {
      RenderedReadsInside(a, a, bounds, g, m);
      ScoreInside(Rendered(a, bounds, g, m), a, diff, bounds, g);
    }
  }

  lemma ScoreInside<T(!new)>(a: Point -> T, b: Point -> T, diff: (T, T) -> int, bounds: Rect, g: nat)
    requires g > 0 && Proper(bounds) && NoFinerThan(g, bounds) && SameInside(a, b, bounds)
    ensures BorderScore(a, diff, bounds, g) == BorderScore(b, diff, bounds, g)
  {
    SideReadsInside(a, b, diff, bounds, g, RightOf);
    SideReadsInside(a, b, diff, bounds, g, Below);
  }
}
