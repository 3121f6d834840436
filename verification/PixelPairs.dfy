/**
 What the seam score measures, told pixel by pixel: how much the picture changes between
 neighbours that belong to different tiles, with every such pair counted once and no other.
 */
module PixelPairs {
  import opened Arithmetic
  import opened Sums
  import opened Tiles

  /** How much the picture changes from p to its neighbour on that side, if that is in another tile. */
  function Change<T>(pic: Point -> T, diff: (T, T) -> int, bounds: Rect, g: nat, p: Point, side: Side): int
    requires g > 0
  {
    var q := Neighbour(p, side);
    if bounds.Contains(p.x, p.y) && bounds.Contains(q.x, q.y)
      && TileOf(bounds, g, p.x, p.y) != TileOf(bounds, g, q.x, q.y)
    then diff(pic(p), pic(q))
    else 0
  }

  /** The changes from all pixels of the image to their neighbours on the right and below. */
  function PixelScore<T>(pic: Point -> T, diff: (T, T) -> int, bounds: Rect, g: nat): int
    requires g > 0 && Framed(bounds)
  {
    Total2((y, x) => Change(pic, diff, bounds, g, At(bounds, x, y), RightOf)
                   + Change(pic, diff, bounds, g, At(bounds, x, y), Below), bounds.Dy(), bounds.Dx())
  }

  /** The pixel in column x and row y. */
  function At(bounds: Rect, x: int, y: int): Point {
    Point(bounds.minX + x, bounds.minY + y)
  }

  // ---------------------------------------------------------------------
  // Cuts: where one tile ends and the next begins
  // ---------------------------------------------------------------------

  /** Position x and the next one belong to different tiles. */
  predicate Cut(x: int, size: nat, g: nat) {
    g > 0 && 0 <= x && x + 1 < size && Owner(x, size, g) != Owner(x + 1, size, g)
  }

  /** The edge as a function of any number. */
  function EdgeAt(c: int, size: nat, g: nat): nat {
    if c >= 0 && g > 0 then Edge(c, size, g) else 0
  }

  /** Between the last position of tile c and the last of tile c + 1 only the first is a cut. */
  lemma CutsOfTile(x: nat, size: nat, g: nat, c: nat)
    requires 0 < g <= size && c + 1 < g && Edge(c + 1, size, g) <= x + 1 < Edge(c + 2, size, g)
    ensures x + 1 < size && (Cut(x, size, g) <==> x + 1 == Edge(c + 1, size, g))
  {
    EdgeWithin(size, g, c + 1);
    EdgesAdvance(size, g, c);
    OwnerIsUnique(x + 1, size, g, c + 1);
    OwnerIsUnique(x, size, g, c);
    OwnerIsUnique(x, size, g, c + 1);
  }

  /** No position of the first tile but its last is a cut. */
  lemma CutsOfFirst(x: nat, size: nat, g: nat)
    requires 0 < g <= size && x + 1 < Edge(1, size, g)
    ensures !Cut(x, size, g)
  {
    EdgeEnds(size, g);
    EdgeWithin(size, g, 0);
    OwnerIsUnique(x, size, g, 0);
    OwnerIsUnique(x + 1, size, g, 0);
  }

  /** The sum stands still where there is nothing to add. */
  lemma Stretch(f: int -> int, a: nat, b: nat)
    requires 1 <= a < b && forall i :: a <= i < b - 1 ==> f(i) == 0
    ensures Total(f, b - 1) == Total(f, a - 1) + f(a - 1)
  {
    var rest := (i: int) => f(a + i);
    TotalOfNothing(rest, b - 1 - a);
    TotalSplit(f, rest, a, b - 1 - a);
  }

  /** cut is f at the cuts and nothing elsewhere. */
  ghost predicate AtCuts(f: int -> int, cut: int -> int, size: nat, g: nat) {
    forall x :: 0 <= x < size ==> cut(x) == if Cut(x, size, g) then f(x) else 0
  }

  ghost predicate AtEnds(f: int -> int, last: int -> int, size: nat, g: nat) {
    forall c :: 0 <= c < g - 1 ==> last(c) == f(EdgeAt(c + 1, size, g) - 1)
  }

  lemma OneTileOn(f: int -> int, cut: int -> int, size: nat, g: nat, c: nat, a: nat, b: nat)
    requires 0 < g <= size && c + 1 < g && a == Edge(c + 1, size, g) && b == Edge(c + 2, size, g)
    requires AtCuts(f, cut, size, g)
    ensures 1 <= a < b <= size && Total(cut, b - 1) == Total(cut, a - 1) + f(a - 1)
  {
    EdgesAdvance(size, g, c);
    EdgesAdvance(size, g, c + 1);
    EdgeWithin(size, g, c + 1);
    forall i | a <= i < b - 1 ensures cut(i) == 0 {
      CutsOfTile(i, size, g, c);
    }
    CutsOfTile(a - 1, size, g, c);
    Stretch(cut, a, b);
  }

  lemma FirstTile(f: int -> int, cut: int -> int, size: nat, g: nat, a: nat)
    requires 0 < g <= size && a == Edge(1, size, g) && AtCuts(f, cut, size, g)
    ensures 1 <= a <= size && Total(cut, a - 1) == 0
  {
    EdgeEnds(size, g);
    EdgesAdvance(size, g, 0);
    EdgeWithin(size, g, 0);
    forall x | 0 <= x < a - 1 ensures cut(x) == 0 {
      CutsOfFirst(x, size, g);
    }
    TotalOfNothing(cut, a - 1);
  }

  lemma OneEndMore(f: int -> int, last: int -> int, size: nat, g: nat, n: nat, a: nat)
    requires 2 <= n <= g && a == Edge(n - 1, size, g) && AtEnds(f, last, size, g)
    ensures Total(last, n - 1) == Total(last, n - 2) + f(a - 1)
  {
    assert last(n - 2) == f(EdgeAt(n - 2 + 1, size, g) - 1);
  }

  /** Summing over the cuts is summing over the last positions of all tiles but the last one. */
  lemma {:induction false} SumOverCuts(
    f: int -> int, cut: int -> int, last: int -> int, size: nat, g: nat, n: nat, b: nat)
    requires 0 < g <= size && 1 <= n <= g && AtCuts(f, cut, size, g) && AtEnds(f, last, size, g)
    requires b == Edge(n, size, g)
    ensures 1 <= b <= size && Total(cut, b - 1) == Total(last, n - 1)
    decreases n
  {
    if n == 1 {
      FirstTile(f, cut, size, g, b);
    } else {
      var a := Edge(n - 1, size, g);
      SumOverCuts(f, cut, last, size, g, n - 1, a);
      OneTileOn(f, cut, size, g, n - 2, a, b);
      OneEndMore(f, last, size, g, n, a);
    }
  }

  lemma AllCuts(f: int -> int, cut: int -> int, last: int -> int, size: nat, g: nat)
    requires 0 < g <= size && AtCuts(f, cut, size, g) && AtEnds(f, last, size, g)
    ensures Total(cut, size) == Total(last, g - 1)
  {
    SumOverCuts(f, cut, last, size, g, g, Edge(g, size, g));
    EdgeEnds(size, g);
  }

  /** The same in every row. */
  lemma {:induction false} RowsOfCuts(
    f: (int, int) -> int, cut: (int, int) -> int, last: (int, int) -> int, k: nat, size: nat, g: nat)
    requires 0 < g <= size
    requires forall i, x :: 0 <= i < k && 0 <= x < size ==> cut(i, x) == if Cut(x, size, g) then f(i, x) else 0
    requires forall i, c :: 0 <= i < k && 0 <= c < g - 1 ==> last(i, c) == f(i, EdgeAt(c + 1, size, g) - 1)
    ensures Total2(cut, k, size) == Total2(last, k, g - 1)
  {
    if k > 0 {
      RowsOfCuts(f, cut, last, k - 1, size, g);
      AllCuts(Row(f, k - 1), Row(cut, k - 1), Row(last, k - 1), size, g);
    }
  }

  /** In each of k rows, cut is f at the cuts and nothing elsewhere. */
  ghost predicate CutTable(f: (int, int) -> int, cut: (int, int) -> int, k: nat, size: nat, g: nat) {
    forall i, x :: 0 <= i < k && 0 <= x < size ==> cut(i, x) == if Cut(x, size, g) then f(i, x) else 0
  }

  /** For each tile but the last, f at its last position in each of k rows. */
  ghost predicate BorderTable(f: (int, int) -> int, borders: (int, int) -> int, k: nat, size: nat, g: nat) {
    forall c, i :: 0 <= c < g - 1 && 0 <= i < k ==> borders(c, i) == f(i, EdgeAt(c + 1, size, g) - 1)
  }

  /** Border by border, or row by row at the cuts. */
  lemma BordersToCuts(
    f: (int, int) -> int, cut: (int, int) -> int, borders: (int, int) -> int, k: nat, size: nat, g: nat)
    requires 0 < g <= size && CutTable(f, cut, k, size, g) && BorderTable(f, borders, k, size, g)
    ensures Total2(borders, g - 1, k) == Total2(cut, k, size)
  {
    var last := (i: int, c: int) => f(i, EdgeAt(c + 1, size, g) - 1);
    SwapTotals(borders, last, g - 1, k);
    RowsOfCuts(f, cut, last, k, size, g);
  }

  // ---------------------------------------------------------------------
  // From borders to pixels
  // ---------------------------------------------------------------------

  function Edges(size: nat, g: nat): int -> nat {
    c => EdgeAt(c, size, g)
  }

  lemma EdgesInImage(size: nat, g: nat, c: nat)
    requires c < g
    ensures EdgeAt(c, size, g) <= EdgeAt(c + 1, size, g) <= size
    ensures EdgeAt(0, size, g) == 0 && EdgeAt(g, size, g) == size
  {
    EdgesAdvance(size, g, c);
    EdgeWithin(size, g, c);
    EdgeEnds(size, g);
  }

  /** How much the picture changes from the pixel in column x and row y to its neighbour. */
  function Jump<T>(pic: Point -> T, diff: (T, T) -> int, bounds: Rect, side: Side, x: int, y: int): int {
    diff(pic(At(bounds, x, y)), pic(Neighbour(At(bounds, x, y), side)))
  }

  function CutJump<T>(pic: Point -> T, diff: (T, T) -> int, bounds: Rect, g: nat, side: Side, x: int, y: int): int
    requires Framed(bounds)
  {
    if (if side.RightOf? then Cut(x, bounds.Dx(), g) else Cut(y, bounds.Dy(), g))
    then Jump(pic, diff, bounds, side, x, y) else 0
  }

  lemma TilesDiffer(g: nat, r: int, c: int, s: int, d: int)
    requires g > 0
    ensures r != s && c == d ==> r * g + c != s * g + d
  {
    NextMultiple(r, g);
    NextMultiple(s, g);
    if r < s {
      ProductMonotone(r + 1, s, g);
    } else if s < r {
      ProductMonotone(s + 1, r, g);
    }
  }

  /** Neighbours are in different tiles just at a cut. */
  lemma ChangeIsCutJump<T>(pic: Point -> T, diff: (T, T) -> int, bounds: Rect, g: nat, side: Side, x: nat, y: nat)
    requires Framed(bounds) && g > 0 && x < bounds.Dx() && y < bounds.Dy()
    ensures Change(pic, diff, bounds, g, At(bounds, x, y), side) == CutJump(pic, diff, bounds, g, side, x, y)
  {
    if side.Below? && y + 1 < bounds.Dy() {
      var c := Owner(x, bounds.Dx(), g);
      TilesDiffer(g, Owner(y, bounds.Dy(), g), c, Owner(y + 1, bounds.Dy(), g), c);
    }
  }

  lemma StepIsJump<T>(pic: Point -> T, diff: (T, T) -> int, bounds: Rect, g: nat, seam: Seam, t: nat)
    requires Proper(bounds) && NoFinerThan(g, bounds) && OnGrid(seam, g) && t < SeamLength(bounds, g, seam)
    ensures Step(pic, diff, bounds, g, seam, t)
         == if seam.side.RightOf?
            then Jump(pic, diff, bounds, RightOf, EdgeAt(seam.col + 1, bounds.Dx(), g) - 1,
                      EdgeAt(seam.row, bounds.Dy(), g) + t)
            else Jump(pic, diff, bounds, Below, EdgeAt(seam.col, bounds.Dx(), g) + t,
                      EdgeAt(seam.row + 1, bounds.Dy(), g) - 1)
  {
    NearTileAt(bounds, g, seam);
    SidesAreInTiles(bounds, g, seam, t);
  }

  lemma SeamLengthIs(bounds: Rect, g: nat, seam: Seam)
    requires Proper(bounds) && OnGrid(seam, g)
    ensures SeamLength(bounds, g, seam)
         == if seam.side.RightOf? then EdgeAt(seam.row + 1, bounds.Dy(), g) - EdgeAt(seam.row, bounds.Dy(), g)
            else EdgeAt(seam.col + 1, bounds.Dx(), g) - EdgeAt(seam.col, bounds.Dx(), g)
    ensures SeamLength(bounds, g, seam) >= 0
  {
    NearTileAt(bounds, g, seam);
    SideTilesTouch(bounds, g, seam);
    EdgesAdvance(bounds.Dx(), g, seam.col);
    EdgesAdvance(bounds.Dy(), g, seam.row);
  }

  /** One border between a tile and the one right of it. */
  lemma SeamAcross<T>(pic: Point -> T, diff: (T, T) -> int, bounds: Rect, g: nat, seam: Seam, f: int -> int, h: nat)
    requires Proper(bounds) && NoFinerThan(g, bounds) && OnGrid(seam, g) && seam.side.RightOf?
    requires h == SeamLength(bounds, g, seam)
    requires forall t :: 0 <= t < h ==> f(t) == Jump(pic, diff, bounds, RightOf,
               EdgeAt(seam.col + 1, bounds.Dx(), g) - 1, EdgeAt(seam.row, bounds.Dy(), g) + t)
    ensures AlongSeam(pic, diff, bounds, g, seam) == Total(f, h)
  {
    forall t | 0 <= t < h ensures f(t) == Step(pic, diff, bounds, g, seam, t) {
      StepIsJump(pic, diff, bounds, g, seam, t);
    }
    SameTotal(f, Steps(pic, diff, bounds, g, seam), h);
  }

  lemma SeamDown<T>(pic: Point -> T, diff: (T, T) -> int, bounds: Rect, g: nat, seam: Seam, f: int -> int, w: nat)
    requires Proper(bounds) && NoFinerThan(g, bounds) && OnGrid(seam, g) && seam.side.Below?
    requires w == SeamLength(bounds, g, seam)
    requires forall t :: 0 <= t < w ==> f(t) == Jump(pic, diff, bounds, Below,
               EdgeAt(seam.col, bounds.Dx(), g) + t, EdgeAt(seam.row + 1, bounds.Dy(), g) - 1)
    ensures AlongSeam(pic, diff, bounds, g, seam) == Total(f, w)
  {
    forall t | 0 <= t < w ensures f(t) == Step(pic, diff, bounds, g, seam, t) {
      StepIsJump(pic, diff, bounds, g, seam, t);
    }
    SameTotal(f, Steps(pic, diff, bounds, g, seam), w);
  }

  // Across: the borders between a tile and the one right of it

  /** f lists the jumps along the right sides of the tiles of one row. */
  ghost predicate RightJumps<T>(
    pic: Point -> T, diff: (T, T) -> int, bounds: Rect, g: nat, row: int, f: (int, int) -> int, h: nat)
  {
    Framed(bounds) &&
    forall c, t :: 0 <= c < g - 1 && 0 <= t < h ==>
      f(c, t) == Jump(pic, diff, bounds, RightOf,
                      EdgeAt(c + 1, bounds.Dx(), g) - 1, EdgeAt(row, bounds.Dy(), g) + t)
  }

  lemma BorderAcross<T>(
    pic: Point -> T, diff: (T, T) -> int, bounds: Rect, g: nat, row: nat, f: (int, int) -> int, h: nat, col: nat)
    requires Proper(bounds) && NoFinerThan(g, bounds) && OnGrid(Seam(RightOf, row, col), g)
    requires EdgeAt(row + 1, bounds.Dy(), g) == EdgeAt(row, bounds.Dy(), g) + h
    requires RightJumps(pic, diff, bounds, g, row, f, h)
    ensures var seam := Seam(RightOf, row, col);
            SeamLength(bounds, g, seam) == h && AlongSeam(pic, diff, bounds, g, seam) == Total(Row(f, col), h)
  {
    var seam := Seam(RightOf, row, col);
    SeamLengthIs(bounds, g, seam);
    SeamAcross(pic, diff, bounds, g, seam, Row(f, col), h);
  }

  lemma BordersOfRow<T>(
    pic: Point -> T, diff: (T, T) -> int, bounds: Rect, g: nat, row: nat, f: (int, int) -> int, h: nat, col: nat)
    requires Proper(bounds) && NoFinerThan(g, bounds) && OnGrid(Seam(RightOf, row, col), g)
    requires EdgeAt(row + 1, bounds.Dy(), g) == EdgeAt(row, bounds.Dy(), g) + h
    requires RightJumps(pic, diff, bounds, g, row, f, h)
    ensures Borders(pic, diff, bounds, g, RightOf, row)(col) == RowTotals(f, h)(col)
  {
    BorderAcross(pic, diff, bounds, g, row, f, h, col);
  }

  lemma RowAcross<T>(
    pic: Point -> T, diff: (T, T) -> int, bounds: Rect, g: nat, row: nat, f: (int, int) -> int, h: nat)
    requires Proper(bounds) && NoFinerThan(g, bounds) && row < g
    requires EdgeAt(row + 1, bounds.Dy(), g) == EdgeAt(row, bounds.Dy(), g) + h
    requires RightJumps(pic, diff, bounds, g, row, f, h)
    ensures AlongRow(pic, diff, bounds, g, RightOf, row) == Total2(f, g - 1, h)
  {
    forall col | 0 <= col < g - 1
      ensures Borders(pic, diff, bounds, g, RightOf, row)(col) == RowTotals(f, h)(col)
    {
      BordersOfRow(pic, diff, bounds, g, row, f, h, col);
    }
    TotalOfTable(Borders(pic, diff, bounds, g, RightOf, row), f, g - 1, h);
  }

  /** f lists, row by row from row `from` on, the jumps at the cuts on that side. */
  ghost predicate PixelJumps<T>(
    pic: Point -> T, diff: (T, T) -> int, bounds: Rect, g: nat, side: Side, f: (int, int) -> int, from: int, h: nat)
  {
    Framed(bounds) &&
    forall y, x :: 0 <= y < h && 0 <= x < bounds.Dx() ==> f(y, x) == CutJump(pic, diff, bounds, g, side, x, from + y)
  }

  /** f is what the picture changes from each pixel to its neighbour, counted from row top on. */
  ghost predicate AllJumps<T>(
    pic: Point -> T, diff: (T, T) -> int, bounds: Rect, side: Side, f: (int, int) -> int, top: int)
  {
    forall y, x :: f(y, x) == Jump(pic, diff, bounds, side, x, top + y)
  }

  lemma RowTables<T>(pic: Point -> T, diff: (T, T) -> int, bounds: Rect, g: nat, row: nat,
                     f: (int, int) -> int, cut: (int, int) -> int, borders: (int, int) -> int, top: nat, h: nat)
    requires Framed(bounds) && top == EdgeAt(row, bounds.Dy(), g)
    requires AllJumps(pic, diff, bounds, RightOf, f, top)
    requires RightJumps(pic, diff, bounds, g, row, borders, h) && PixelJumps(pic, diff, bounds, g, RightOf, cut, top, h)
    ensures CutTable(f, cut, h, bounds.Dx(), g) && BorderTable(f, borders, h, bounds.Dx(), g)
  {}

  lemma RowTablesAgree<T>(pic: Point -> T, diff: (T, T) -> int, bounds: Rect, g: nat, row: nat,
                          f: (int, int) -> int, cut: (int, int) -> int, borders: (int, int) -> int, top: nat, h: nat)
    requires Framed(bounds) && top == EdgeAt(row, bounds.Dy(), g) && 0 < g <= bounds.Dx()
    requires AllJumps(pic, diff, bounds, RightOf, f, top)
    requires RightJumps(pic, diff, bounds, g, row, borders, h) && PixelJumps(pic, diff, bounds, g, RightOf, cut, top, h)
    ensures Total2(borders, g - 1, h) == Total2(cut, h, bounds.Dx())
  {
    RowTables(pic, diff, bounds, g, row, f, cut, borders, top, h);
    BordersToCuts(f, cut, borders, h, bounds.Dx(), g);
  }

  lemma JumpsOfRow<T>(pic: Point -> T, diff: (T, T) -> int, bounds: Rect, g: nat, row: nat, top: nat, h: nat)
    returns (f: (int, int) -> int, borders: (int, int) -> int)
    requires Framed(bounds) && top == EdgeAt(row, bounds.Dy(), g)
    ensures AllJumps(pic, diff, bounds, RightOf, f, top) && RightJumps(pic, diff, bounds, g, row, borders, h)
  {
    f := (t: int, x: int) => Jump(pic, diff, bounds, RightOf, x, top + t);
    borders := (c: int, t: int) => Jump(pic, diff, bounds, RightOf, EdgeAt(c + 1, bounds.Dx(), g) - 1, top + t);
  }

  lemma RowOfPixels<T>(
    pic: Point -> T, diff: (T, T) -> int, bounds: Rect, g: nat, row: nat, cut: (int, int) -> int, top: nat, h: nat)
    requires Proper(bounds) && NoFinerThan(g, bounds) && row < g
    requires top == EdgeAt(row, bounds.Dy(), g) && EdgeAt(row + 1, bounds.Dy(), g) == top + h
    requires PixelJumps(pic, diff, bounds, g, RightOf, cut, top, h)
    ensures AlongRow(pic, diff, bounds, g, RightOf, row) == Total2(cut, h, bounds.Dx())
  {
    var f, borders := JumpsOfRow(pic, diff, bounds, g, row, top, h);
    RowAcross(pic, diff, bounds, g, row, borders, h);
    RowTablesAgree(pic, diff, bounds, g, row, f, cut, borders, top, h);
  }

  lemma RowInPicture<T>(
    pic: Point -> T, diff: (T, T) -> int, bounds: Rect, g: nat, cut: (int, int) -> int, row: nat, top: nat, h: nat)
    requires Proper(bounds) && 0 < g && NoFinerThan(g, bounds) && row < g
    requires top == EdgeAt(row, bounds.Dy(), g) && top + h == EdgeAt(row + 1, bounds.Dy(), g) && top + h <= bounds.Dy()
    requires PixelJumps(pic, diff, bounds, g, RightOf, cut, 0, bounds.Dy())
    ensures Total2(cut, top + h, bounds.Dx())
         == Total2(cut, top, bounds.Dx()) + AlongRow(pic, diff, bounds, g, RightOf, row)
  {
    var here := (t: int, x: int) => cut(top + t, x);
    Total2Split(cut, here, top, h, bounds.Dx());
    RowOfPixels(pic, diff, bounds, g, row, here, top, h);
  }

  lemma RowGrows<T>(pic: Point -> T, diff: (T, T) -> int, bounds: Rect, g: nat, cut: (int, int) -> int, row: nat)
    requires Proper(bounds) && 0 < g && NoFinerThan(g, bounds) && row < g
    requires PixelJumps(pic, diff, bounds, g, RightOf, cut, 0, bounds.Dy())
    ensures Grows(RowTotals(cut, bounds.Dx()), AlongRows(pic, diff, bounds, g, RightOf), Edges(bounds.Dy(), g), row)
  {
    var top, bottom := EdgeAt(row, bounds.Dy(), g), EdgeAt(row + 1, bounds.Dy(), g);
    EdgesInImage(bounds.Dy(), g, row);
    RowInPicture(pic, diff, bounds, g, cut, row, top, bottom - top);
    TotalOfRows(cut, top, bounds.Dx());
    TotalOfRows(cut, bottom, bounds.Dx());
  }

  /** The borders to the right. */
  lemma BordersAcross<T>(pic: Point -> T, diff: (T, T) -> int, bounds: Rect, g: nat, cut: (int, int) -> int)
    requires Proper(bounds) && 0 < g && NoFinerThan(g, bounds)
    requires PixelJumps(pic, diff, bounds, g, RightOf, cut, 0, bounds.Dy())
    ensures Total(AlongRows(pic, diff, bounds, g, RightOf), g) == Total2(cut, bounds.Dy(), bounds.Dx())
  {
    forall row | 0 <= row < g
      ensures Grows(RowTotals(cut, bounds.Dx()), AlongRows(pic, diff, bounds, g, RightOf), Edges(bounds.Dy(), g), row)
    {
      RowGrows(pic, diff, bounds, g, cut, row);
    }
    EdgesInImage(bounds.Dy(), g, 0);
    ByBlocks(RowTotals(cut, bounds.Dx()), AlongRows(pic, diff, bounds, g, RightOf), Edges(bounds.Dy(), g), g);
    TotalOfRows(cut, bounds.Dy(), bounds.Dx());
  }

  // Down: the borders between a tile and the one below it

  /** f has, for column x, the jump from the last pixel of that row of tiles to the one below. */
  ghost predicate LowerJump<T>(
    pic: Point -> T, diff: (T, T) -> int, bounds: Rect, g: nat, row: int, f: int -> int, x: int)
  {
    Framed(bounds) && f(x) == Jump(pic, diff, bounds, Below, x, EdgeAt(row + 1, bounds.Dy(), g) - 1)
  }

  ghost predicate LowerJumps<T>(pic: Point -> T, diff: (T, T) -> int, bounds: Rect, g: nat, row: int, f: int -> int) {
    forall x :: 0 <= x < bounds.Dx() ==> LowerJump(pic, diff, bounds, g, row, f, x)
  }

  /** The border below tile col of the row, which is as wide as that tile. */
  lemma BorderDown<T>(pic: Point -> T, diff: (T, T) -> int, bounds: Rect, g: nat, row: nat, f: int -> int, col: nat,
                      here: int -> int, left: nat)
    returns (width: nat)
    requires Proper(bounds) && NoFinerThan(g, bounds) && OnGrid(Seam(Below, row, col), g)
    requires EdgeAt(col + 1, bounds.Dx(), g) <= bounds.Dx() && LowerJumps(pic, diff, bounds, g, row, f)
    requires left == EdgeAt(col, bounds.Dx(), g) && forall t :: here(t) == f(left + t)
    ensures left + width == EdgeAt(col + 1, bounds.Dx(), g)
    ensures AlongSeam(pic, diff, bounds, g, Seam(Below, row, col)) == Total(here, width)
  {
    var seam := Seam(Below, row, col);
    width := SeamLength(bounds, g, seam);
    SeamLengthIs(bounds, g, seam);
    forall t | 0 <= t < width
      ensures here(t) == Jump(pic, diff, bounds, Below, left + t, EdgeAt(row + 1, bounds.Dy(), g) - 1)
    {
      assert LowerJump(pic, diff, bounds, g, row, f, left + t);
    }
    SeamDown(pic, diff, bounds, g, seam, here, width);
  }

  lemma BorderAdds<T>(pic: Point -> T, diff: (T, T) -> int, bounds: Rect, g: nat, row: nat, f: int -> int, col: nat,
                      left: nat)
    returns (width: nat)
    requires Proper(bounds) && NoFinerThan(g, bounds) && OnGrid(Seam(Below, row, col), g)
    requires EdgeAt(col + 1, bounds.Dx(), g) <= bounds.Dx() && LowerJumps(pic, diff, bounds, g, row, f)
    requires left == EdgeAt(col, bounds.Dx(), g)
    ensures left + width == EdgeAt(col + 1, bounds.Dx(), g)
    ensures Total(f, left + width) == Total(f, left) + AlongSeam(pic, diff, bounds, g, Seam(Below, row, col))
  {
    var here := (t: int) => f(left + t);
    width := BorderDown(pic, diff, bounds, g, row, f, col, here, left);
    SumGoesOn(f, here, left, width, AlongSeam(pic, diff, bounds, g, Seam(Below, row, col)));
  }

  lemma BorderGrows<T>(pic: Point -> T, diff: (T, T) -> int, bounds: Rect, g: nat, row: nat, f: int -> int, col: nat)
    requires Proper(bounds) && NoFinerThan(g, bounds) && OnGrid(Seam(Below, row, col), g)
    requires EdgeAt(col + 1, bounds.Dx(), g) <= bounds.Dx() && LowerJumps(pic, diff, bounds, g, row, f)
    ensures Grows(f, Borders(pic, diff, bounds, g, Below, row), Edges(bounds.Dx(), g), col)
  {
    var left := EdgeAt(col, bounds.Dx(), g);
    var width := BorderAdds(pic, diff, bounds, g, row, f, col, left);
    GrowsBy(f, Borders(pic, diff, bounds, g, Below, row), Edges(bounds.Dx(), g), col, left, width);
  }

  /** The borders below the tiles of one row. */
  lemma RowDown<T>(pic: Point -> T, diff: (T, T) -> int, bounds: Rect, g: nat, row: nat, f: int -> int)
    requires Proper(bounds) && NoFinerThan(g, bounds) && row < g - 1 && LowerJumps(pic, diff, bounds, g, row, f)
    ensures AlongRow(pic, diff, bounds, g, Below, row) == Total(f, bounds.Dx())
  {
    forall col | 0 <= col < g
      ensures Grows(f, Borders(pic, diff, bounds, g, Below, row), Edges(bounds.Dx(), g), col)
    {
      EdgesInImage(bounds.Dx(), g, col);
      BorderGrows(pic, diff, bounds, g, row, f, col);
    }
    EdgesInImage(bounds.Dx(), g, 0);
    ByBlocks(f, Borders(pic, diff, bounds, g, Below, row), Edges(bounds.Dx(), g), g);
  }

  ghost predicate LowerJumpsOf<T>(
    pic: Point -> T, diff: (T, T) -> int, bounds: Rect, g: nat, f: (int, int) -> int, r: int)
  {
    LowerJumps(pic, diff, bounds, g, r, Row(f, r))
  }

  ghost predicate AllLowerJumps<T>(
    pic: Point -> T, diff: (T, T) -> int, bounds: Rect, g: nat, f: (int, int) -> int)
  {
    Framed(bounds) && forall r :: 0 <= r < g - 1 ==> LowerJumpsOf(pic, diff, bounds, g, f, r)
  }

  lemma RowOfTable<T>(
    pic: Point -> T, diff: (T, T) -> int, bounds: Rect, g: nat, f: (int, int) -> int, row: nat)
    requires Proper(bounds) && NoFinerThan(g, bounds) && AllLowerJumps(pic, diff, bounds, g, f) && row < g - 1
    ensures AlongRows(pic, diff, bounds, g, Below)(row) == RowTotals(f, bounds.Dx())(row)
  {
    assert LowerJumpsOf(pic, diff, bounds, g, f, row);
    RowDown(pic, diff, bounds, g, row, Row(f, row));
  }

  lemma RowsOfTable<T>(pic: Point -> T, diff: (T, T) -> int, bounds: Rect, g: nat, f: (int, int) -> int)
    requires Proper(bounds) && NoFinerThan(g, bounds) && AllLowerJumps(pic, diff, bounds, g, f)
    ensures forall row: nat :: row < g - 1 ==>
              AlongRows(pic, diff, bounds, g, Below)(row) == RowTotals(f, bounds.Dx())(row)
  {
    forall row: nat | row < g - 1
      ensures AlongRows(pic, diff, bounds, g, Below)(row) == RowTotals(f, bounds.Dx())(row)
    {
      RowOfTable(pic, diff, bounds, g, f, row);
    }
  }

  lemma BordersDown<T>(pic: Point -> T, diff: (T, T) -> int, bounds: Rect, g: nat, f: (int, int) -> int)
    requires Proper(bounds) && 0 < g && NoFinerThan(g, bounds) && AllLowerJumps(pic, diff, bounds, g, f)
    ensures Total(AlongRows(pic, diff, bounds, g, Below), g - 1) == Total2(f, g - 1, bounds.Dx())
  {
    RowsOfTable(pic, diff, bounds, g, f);
    TotalOfTable(AlongRows(pic, diff, bounds, g, Below), f, g - 1, bounds.Dx());
  }

  lemma JumpsDown<T>(pic: Point -> T, diff: (T, T) -> int, bounds: Rect, g: nat)
    returns (f: (int, int) -> int, borders: (int, int) -> int)
    requires Framed(bounds)
    ensures AllJumps(pic, diff, bounds, Below, f, 0) && AllLowerJumps(pic, diff, bounds, g, borders)
  {
    f := (y: int, x: int) => Jump(pic, diff, bounds, Below, x, y);
    borders := (r: int, x: int) => Jump(pic, diff, bounds, Below, x, EdgeAt(r + 1, bounds.Dy(), g) - 1);
    forall r | 0 <= r < g - 1 ensures LowerJumpsOf(pic, diff, bounds, g, borders, r) {
      forall x | 0 <= x < bounds.Dx() ensures LowerJump(pic, diff, bounds, g, r, Row(borders, r), x) {
      }
    }
  }

  lemma ColumnTables<T>(pic: Point -> T, diff: (T, T) -> int, bounds: Rect, g: nat,
                        f: (int, int) -> int, cut: (int, int) -> int, borders: (int, int) -> int)
    requires Framed(bounds) && AllJumps(pic, diff, bounds, Below, f, 0) && AllLowerJumps(pic, diff, bounds, g, borders)
    requires PixelJumps(pic, diff, bounds, g, Below, cut, 0, bounds.Dy())
    ensures CutTable((x, y) => f(y, x), (x, y) => cut(y, x), bounds.Dx(), bounds.Dy(), g)
    ensures BorderTable((x, y) => f(y, x), borders, bounds.Dx(), bounds.Dy(), g)
  {
    var turned := (x: int, y: int) => f(y, x);
    forall c, i | 0 <= c < g - 1 && 0 <= i < bounds.Dx()
      ensures borders(c, i) == turned(i, EdgeAt(c + 1, bounds.Dy(), g) - 1)
    {
      assert LowerJumpsOf(pic, diff, bounds, g, borders, c);
      assert LowerJump(pic, diff, bounds, g, c, Row(borders, c), i);
    }
  }

  lemma PixelsDown<T>(pic: Point -> T, diff: (T, T) -> int, bounds: Rect, g: nat, cut: (int, int) -> int)
    requires Proper(bounds) && 0 < g && NoFinerThan(g, bounds)
    requires PixelJumps(pic, diff, bounds, g, Below, cut, 0, bounds.Dy())
    ensures Total(AlongRows(pic, diff, bounds, g, Below), g - 1) == Total2(cut, bounds.Dy(), bounds.Dx())
  {
    var f, borders := JumpsDown(pic, diff, bounds, g);
    BordersDown(pic, diff, bounds, g, borders);
    ColumnTables(pic, diff, bounds, g, f, cut, borders);
    BordersToCuts((x, y) => f(y, x), (x, y) => cut(y, x), borders, bounds.Dx(), bounds.Dy(), g);
    SwapTotals((x, y) => cut(y, x), cut, bounds.Dx(), bounds.Dy());
  }

  lemma ChangesAreJumps<T>(
    pic: Point -> T, diff: (T, T) -> int, bounds: Rect, g: nat, side: Side, f: (int, int) -> int)
    requires Framed(bounds) && g > 0
    requires forall y, x :: f(y, x) == Change(pic, diff, bounds, g, At(bounds, x, y), side)
    ensures PixelJumps(pic, diff, bounds, g, side, f, 0, bounds.Dy())
  {
    forall y, x | 0 <= y < bounds.Dy() && 0 <= x < bounds.Dx()
      ensures f(y, x) == CutJump(pic, diff, bounds, g, side, x, 0 + y)
    {
      ChangeIsCutJump(pic, diff, bounds, g, side, x, y);
    }
  }

  /** The score is the sum over the pixels of the changes to the right and of those down. */
  lemma PixelScoreSplits<T>(pic: Point -> T, diff: (T, T) -> int, bounds: Rect, g: nat)
    returns (right: (int, int) -> int, down: (int, int) -> int)
    requires g > 0 && Framed(bounds)
    ensures forall y, x :: right(y, x) == Change(pic, diff, bounds, g, At(bounds, x, y), RightOf)
    ensures forall y, x :: down(y, x) == Change(pic, diff, bounds, g, At(bounds, x, y), Below)
    ensures PixelScore(pic, diff, bounds, g)
         == Total2(right, bounds.Dy(), bounds.Dx()) + Total2(down, bounds.Dy(), bounds.Dx())
  {
    right := (y, x) => Change(pic, diff, bounds, g, At(bounds, x, y), RightOf);
    down := (y, x) => Change(pic, diff, bounds, g, At(bounds, x, y), Below);
    Total2Plus(right, down, (y, x) => Change(pic, diff, bounds, g, At(bounds, x, y), RightOf)
                                    + Change(pic, diff, bounds, g, At(bounds, x, y), Below), bounds.Dy(), bounds.Dx());
  }

  /**
   The border score counts each pair of neighbouring pixels that lie in different tiles
   exactly once, and nothing else.
   */
  lemma BordersAreThePixels<T>(pic: Point -> T, diff: (T, T) -> int, bounds: Rect, g: nat)
    requires Proper(bounds) && 0 < g && NoFinerThan(g, bounds)
    ensures BorderScore(pic, diff, bounds, g) == PixelScore(pic, diff, bounds, g)
  {
    var right, down := PixelScoreSplits(pic, diff, bounds, g);
    ChangesAreJumps(pic, diff, bounds, g, RightOf, right);
    ChangesAreJumps(pic, diff, bounds, g, Below, down);
    BordersAcross(pic, diff, bounds, g, right);
    PixelsDown(pic, diff, bounds, g, down);
  }
}
